/**
 One room over a whole run of commands, however the saves that issue them are
 interleaved: its highest hundred entries are always the hundred greatest of all
 events added since it was last empty, and once every save has trimmed nothing
 else is stored.
 */
module HistoryRuns {
  import opened Wrappers
  import opened EventHistory

  // ----- what was ever saved

  ghost predicate Lives(codec: Codec, ops: seq<Op>, now: nat) {
    Live(RoomAfter(codec, ops), now).Some?
  }

  /** The distinct events added since the room was last deleted or lapsed. */
  ghost function Remembered(codec: Codec, ops: seq<Op>): set<Event> {
    if ops == [] then {}
    else
      var Op(command, at) := ops[|ops| - 1];
      var before := ops[..|ops| - 1];
      var carried := if Lives(codec, before, at) then Remembered(codec, before) else {};
      match command
      case Add(event) => carried + {event}
      case Delete => {}
      case _ => carried
  }

  /** Never deleted and never found lapsed. */
  ghost predicate Unbroken(codec: Codec, ops: seq<Op>) {
    && (forall i :: 0 <= i < |ops| ==> ops[i].command != Delete)
    && (forall i :: 0 <= i < |ops| && RoomAfter(codec, ops[..i]).Some? ==> Lives(codec, ops[..i], ops[i].at))
  }

  ghost predicate EverAdded(ops: seq<Op>, event: Event) {
    exists i :: 0 <= i < |ops| && ops[i].command == Add(event)
  }

  lemma EverAddedLast(ops: seq<Op>, event: Event)
    requires ops != []
    ensures EverAdded(ops, event) <==> EverAdded(ops[..|ops| - 1], event) || ops[|ops| - 1].command == Add(event)
  {
    var before := ops[..|ops| - 1];
    if EverAdded(before, event) {
      var i :| 0 <= i < |before| && before[i].command == Add(event);
      assert ops[i].command == Add(event);
    }
    if EverAdded(ops, event) && ops[|ops| - 1].command != Add(event) {
      var i :| 0 <= i < |ops| && ops[i].command == Add(event);
      assert before[i].command == Add(event);
    }
  }

  lemma UnbrokenBefore(codec: Codec, ops: seq<Op>)
    requires ops != [] && Unbroken(codec, ops)
    ensures Unbroken(codec, ops[..|ops| - 1])
  {
    var before := ops[..|ops| - 1];
    forall i | 0 <= i < |before| && RoomAfter(codec, before[..i]).Some?
      ensures Lives(codec, before[..i], before[i].at)
    {
      assert before[..i] == ops[..i];
    }
  }

  /** When the room is never deleted and never found lapsed, that is every event added. */
  lemma {:induction false} NothingForgottenWithoutLapse(codec: Codec, ops: seq<Op>)
    requires Unbroken(codec, ops)
    ensures forall e :: e in Remembered(codec, ops) <==> EverAdded(ops, e)
  {
    if ops == [] {
    } else {
      var before := ops[..|ops| - 1];
      UnbrokenBefore(codec, ops);
      NothingForgottenWithoutLapse(codec, before);
      assert before == ops[..|ops| - 1];
      if RoomAfter(codec, before).None? {
        MissingRemembersNothing(codec, before);
      }
      forall e ensures e in Remembered(codec, ops) <==> EverAdded(ops, e) {
        EverAddedLast(ops, e);
      }
    }
  }

  lemma MissingRemembersNothing(codec: Codec, ops: seq<Op>)
    requires RoomAfter(codec, ops).None?
    ensures Remembered(codec, ops) == {} && Untrimmed(codec, ops) == []
  {
  }

  lemma TrimAlone(codec: Codec, room: Room, trim: nat)
    ensures Next(codec, Some(room), Op(Trim, trim)) ==
      if Live(Some(room), trim).Some? then Some(room.(entries := Last(room.entries, MAX_EVENTS_PER_ROOM))) else None
  {
  }

  lemma TrimThenExpire(codec: Codec, room: Room, ttl: nat, trim: nat, expire: nat)
    requires trim <= expire
    ensures Next(codec, Next(codec, Some(room), Op(Trim, trim)), Op(Expire(ttl), expire)) ==
      if Live(Some(room), expire).None? then None
      else Some(Room(Last(room.entries, MAX_EVENTS_PER_ROOM), Some(expire + ttl)))
  {
    TrimAlone(codec, room, trim);
  }

  /** A save that nobody disturbs, its commands at three instants: the event is lost,
      with the whole room, exactly when an old deadline passes before the EXPIRE. */
  lemma SaveAlone(codec: Codec, room: Option<Room>, event: Event, ttl: nat, add: nat, trim: nat, expire: nat)
    requires add <= trim <= expire
    ensures var added := Next(codec, room, Op(Add(event), add));
      var saved := Next(codec, Next(codec, added, Op(Trim, trim)), Op(Expire(ttl), expire));
      var found := Live(room, add);
      && (saved.None? <==> found.Some? && Live(found, expire).None?)
      && (saved.Some? ==> saved.value == Room(
            Last(ZAdd(EntriesIn(found), codec.ToEntry(event)), MAX_EVENTS_PER_ROOM), Some(expire + ttl)))
  {
    TrimThenExpire(codec, Next(codec, room, Op(Add(event), add)).value, ttl, trim, expire);
  }

  // ----- sorted sequences

  /** A member text belongs to one score only. */
  ghost predicate Coherent(s: seq<Entry>, e: Entry) {
    forall i :: 0 <= i < |s| ==> s[i].member == e.member ==> s[i] == e
  }

  lemma {:induction false} RemoveNothing(s: seq<Entry>, e: Entry)
    requires Coherent(s, e) && e !in s
    ensures Remove(s, e.member) == s
  {
    if s == [] {
    } else {
      RemoveNothing(s[1..], e);
    }
  }

  lemma {:induction false} ZAddIsInsert(s: seq<Entry>, e: Entry)
    requires Sorted(s) && Coherent(s, e)
    ensures ZAdd(s, e) == if e in s then s else Insert(s, e)
  {
    if e !in s {
      RemoveNothing(s, e);
    } else {
      LessTotal(s[0], e);
      if s[0] == e {
        forall i | 0 < i < |s| ensures s[i] != e { LessTotal(s[0], s[i]); }
        RemoveNothing(s[1..], e);
      } else {
        ZAddIsInsert(s[1..], e);
      }
    }
  }

  lemma {:induction false} InsertKeepsSorted(s: seq<Entry>, e: Entry)
    requires Sorted(s) && e !in s
    ensures Sorted(Insert(s, e)) && |Insert(s, e)| == |s| + 1
    ensures forall x :: x in Insert(s, e) <==> x == e || x in s
  {
    if s == [] {
    } else {
      LessTotal(e, s[0]);
      if Less(e, s[0]) {
        forall i | 0 < i < |s| ensures Less(e, s[i]) { LessTrans(e, s[0], s[i]); }
      } else {
        var rest := Insert(s[1..], e);
        InsertKeepsSorted(s[1..], e);
        forall i | 0 <= i < |rest| ensures Less(s[0], rest[i]) { assert rest[i] in rest; }
      }
    }
  }

  /** Where an entry goes in a sequence cut in two. */
  lemma {:induction false} InsertRight(p: seq<Entry>, b: seq<Entry>, e: Entry)
    requires Sorted(p + b) && b != [] && Less(b[0], e)
    ensures Insert(p + b, e) == p + Insert(b, e)
  {
    var s := p + b;
    if p == [] {
      assert s == b;
    } else {
      assert s[1..] == p[1..] + b && s[|p|] == b[0];
      InsertRight(p[1..], b, e);
      LessTrans(s[0], b[0], e);
      LessTotal(e, s[0]);
    }
  }

  lemma {:induction false} InsertLeft(p: seq<Entry>, b: seq<Entry>, e: Entry)
    requires b != [] && Less(e, b[0])
    ensures Insert(p + b, e) == Insert(p, e) + b
  {
    var s := p + b;
    if p == [] {
      assert s == b;
    } else {
      assert s[1..] == p[1..] + b;
      InsertLeft(p[1..], b, e);
    }
  }

  lemma LastOfJoined(p: seq<Entry>, b: seq<Entry>, k: nat)
    requires k <= |b|
    ensures Last(p + b, k) == Last(b, k)
  {
  }

  lemma CutBeforeInsert(p: seq<Entry>, b: seq<Entry>, e: Entry)
    requires Sorted(p + b) && b != [] && e !in p + b
    ensures Last(Insert(b, e), |b|) == Last(Insert(p + b, e), |b|)
  {
    LessTotal(e, b[0]);
    InsertLength(b, e);
    if Less(b[0], e) {
      InsertRight(p, b, e);
      LastOfJoined(p, Insert(b, e), |b|);
    } else {
      assert b[0] in p + b;
      InsertLeft(p, b, e);
      LastOfJoined(Insert(p, e), b, |b|);
      LastOfJoined([e], b, |b|);
    }
  }

  lemma {:induction false} InsertLength(s: seq<Entry>, e: Entry)
    ensures |Insert(s, e)| == |s| + 1
  {
    if s == [] {
    } else {
      InsertLength(s[1..], e);
    }
  }

  lemma TrimBeforeInsert(s: seq<Entry>, e: Entry, k: nat)
    requires Sorted(s) && e !in s && k > 0
    ensures Last(Insert(Last(s, k), e), k) == Last(Insert(s, e), k)
  {
    if |s| > k {
      var p, b := s[..|s| - k], s[|s| - k..];
      assert s == p + b;
      CutBeforeInsert(p, b, e);
    }
  }

  /** Trimming before a ZADD, as earlier saves did, changes nothing after the next trim. */
  lemma TrimBeforeZAdd(s: seq<Entry>, e: Entry, k: nat)
    requires Sorted(s) && Coherent(s, e) && k > 0
    ensures Last(ZAdd(Last(s, k), e), k) == Last(ZAdd(s, e), k)
  {
    var kept := Last(s, k);
    ZAddIsInsert(s, e);
    ZAddIsInsert(kept, e);
    if e !in s {
      TrimBeforeInsert(s, e, k);
    } else if e !in kept {
      var i :| 0 <= i < |s| - k && s[i] == e;
      assert Less(s[i], s[|s| - k]);
      assert Insert(kept, e) == [e] + kept;
    }
  }

  // ----- the refinement

  /** The sorted set if it were never trimmed. */
  ghost function Untrimmed(codec: Codec, ops: seq<Op>): seq<Entry> {
    if ops == [] then []
    else
      var Op(command, at) := ops[|ops| - 1];
      var before := ops[..|ops| - 1];
      var carried := if Lives(codec, before, at) then Untrimmed(codec, before) else [];
      match command
      case Add(event) => ZAdd(carried, codec.ToEntry(event))
      case Delete => []
      case _ => carried
  }

  ghost predicate EntryOf(codec: Codec, x: Entry, events: set<Event>) {
    exists e :: e in events && codec.ToEntry(e) == x
  }

  ghost predicate EntriesOf(codec: Codec, s: seq<Entry>, events: set<Event>) {
    forall x :: x in s ==> EntryOf(codec, x, events)
  }

  /** A strictly sorted listing of the entries of a set of events. */
  ghost predicate Lists(codec: Codec, s: seq<Entry>, events: set<Event>) {
    && Sorted(s)
    && (forall e :: e in events ==> codec.ToEntry(e) in s)
    && EntriesOf(codec, s, events)
  }

  lemma ListsAreCoherent(codec: Codec, s: seq<Entry>, events: set<Event>, event: Event)
    requires codec.RoundTrips() && Lists(codec, s, events)
    ensures Coherent(s, codec.ToEntry(event))
    ensures codec.ToEntry(event) in s <==> event in events
  {
    forall i | 0 <= i < |s| && s[i].member == codec.ToEntry(event).member
      ensures s[i] == codec.ToEntry(event) && event in events
    {
      assert s[i] in s && EntryOf(codec, s[i], events);
      var e :| e in events && codec.ToEntry(e) == s[i];
      assert codec.parse(codec.stringify(e)) == Some(e);
      assert codec.parse(codec.stringify(event)) == Some(event);
    }
  }

  lemma ZAddLists(codec: Codec, s: seq<Entry>, events: set<Event>, event: Event)
    requires codec.RoundTrips() && Lists(codec, s, events)
    ensures Lists(codec, ZAdd(s, codec.ToEntry(event)), events + {event})
  {
    var entry := codec.ToEntry(event);
    ListsAreCoherent(codec, s, events, event);
    ZAddIsInsert(s, entry);
    if entry !in s {
      InsertKeepsSorted(s, entry);
    }
    var t := ZAdd(s, entry);
    forall x | x in t ensures EntryOf(codec, x, events + {event}) {
      if x == entry {
        assert event in events + {event};
      } else {
        assert EntryOf(codec, x, events);
        var e :| e in events && codec.ToEntry(e) == x;
        assert e in events + {event};
      }
    }
  }

  lemma {:induction false} UntrimmedLists(codec: Codec, ops: seq<Op>)
    requires codec.RoundTrips()
    ensures Lists(codec, Untrimmed(codec, ops), Remembered(codec, ops))
  {
    if ops == [] {
    } else {
      var Op(command, at) := ops[|ops| - 1];
      var before := ops[..|ops| - 1];
      UntrimmedLists(codec, before);
      if command.Add? {
        if Lives(codec, before, at) {
          ZAddLists(codec, Untrimmed(codec, before), Remembered(codec, before), command.event);
        } else {
          ZAddLists(codec, [], {}, command.event);
        }
      }
    }
  }

  /** Entries taken from a listing, in order, with the same highest k. */
  ghost predicate Trimmed(s: seq<Entry>, all: seq<Entry>, k: nat) {
    Sorted(s) && (forall x :: x in s ==> x in all) && Last(s, k) == Last(all, k)
  }

  lemma ZAddKeepsTrimmed(codec: Codec, s: seq<Entry>, all: seq<Entry>, events: set<Event>, event: Event, k: nat)
    requires codec.RoundTrips() && Lists(codec, all, events) && Trimmed(s, all, k) && k > 0
    ensures Trimmed(ZAdd(s, codec.ToEntry(event)), ZAdd(all, codec.ToEntry(event)), k)
  {
    var e := codec.ToEntry(event);
    ListsAreCoherent(codec, all, events, event);
    assert Coherent(s, e) by {
      forall i | 0 <= i < |s| && s[i].member == e.member ensures s[i] == e { assert s[i] in all; }
    }
    TrimBeforeZAdd(s, e, k);
    TrimBeforeZAdd(all, e, k);
    ZAddIsInsert(s, e);
    ZAddIsInsert(all, e);
    if e !in s { InsertKeepsSorted(s, e); }
    if e !in all { InsertKeepsSorted(all, e); }
  }

  lemma LastTwice(s: seq<Entry>, k: nat)
    requires Sorted(s)
    ensures Last(Last(s, k), k) == Last(s, k) && Sorted(Last(s, k))
    ensures forall x :: x in Last(s, k) ==> x in s
    ensures ZRemRange(s, -(k as int) - 1) == Last(s, k)
  {
  }

  /** However adds, trims, lapses and deletions are mixed, the highest hundred
      stored are those of the set that is never trimmed. */
  lemma {:induction false} RoomIsTrimmed(codec: Codec, ops: seq<Op>)
    requires codec.RoundTrips()
    ensures RoomAfter(codec, ops).Some? ==>
      Trimmed(RoomAfter(codec, ops).value.entries, Untrimmed(codec, ops), MAX_EVENTS_PER_ROOM)
  {
    if ops == [] {
    } else {
      var Op(command, at) := ops[|ops| - 1];
      var before := ops[..|ops| - 1];
      RoomIsTrimmed(codec, before);
      if Lives(codec, before, at) {
        var entries := RoomAfter(codec, before).value.entries;
        match command
        case Add(event) =>
          UntrimmedLists(codec, before);
          ZAddKeepsTrimmed(codec, entries, Untrimmed(codec, before), Remembered(codec, before), event,
                           MAX_EVENTS_PER_ROOM);
        case Trim => LastTwice(entries, MAX_EVENTS_PER_ROOM);
        case _ =>
      }
    }
  }

  /** The adds since the last trim or deletion. */
  function Untidy(ops: seq<Op>): nat {
    if ops == [] then 0
    else
      match ops[|ops| - 1].command
      case Add(_) => Untidy(ops[..|ops| - 1]) + 1
      case Expire(_) => Untidy(ops[..|ops| - 1])
      case _ => 0
  }

  lemma {:induction false} RemoveShortens(s: seq<Entry>, member: string)
    ensures |Remove(s, member)| <= |s|
  {
    if s == [] {
    } else {
      RemoveShortens(s[1..], member);
    }
  }

  /** A room holds a hundred entries and one for each add not yet trimmed. */
  lemma {:induction false} RoomIsSmall(codec: Codec, ops: seq<Op>)
    ensures RoomAfter(codec, ops).Some? ==> |RoomAfter(codec, ops).value.entries| <= MAX_EVENTS_PER_ROOM + Untidy(ops)
  {
    if ops == [] {
    } else {
      var Op(command, at) := ops[|ops| - 1];
      var before := ops[..|ops| - 1];
      RoomIsSmall(codec, before);
      if command.Add? && Lives(codec, before, at) {
        var entries, e := RoomAfter(codec, before).value.entries, codec.ToEntry(command.event);
        RemoveShortens(entries, e.member);
        InsertLength(Remove(entries, e.member), e);
      }
    }
  }

  /** Every save that has added its event has trimmed too. */
  ghost predicate AllTrimmed(ops: seq<Op>) {
    forall i :: 0 <= i < |ops| && ops[i].command.Add? ==> exists j :: i < j < |ops| && ops[j].command.Trim?
  }

  lemma {:induction false} TrimmedIsTidy(ops: seq<Op>)
    requires forall i :: 0 <= i < |ops| && ops[i].command.Add? ==>
      exists j :: i < j < |ops| && (ops[j].command.Trim? || ops[j].command.Delete?)
    ensures Untidy(ops) == 0
  {
    if ops == [] {
    } else if ops[|ops| - 1].command.Expire? {
      var before := ops[..|ops| - 1];
      forall i | 0 <= i < |before| && before[i].command.Add?
        ensures exists j :: i < j < |before| && (before[j].command.Trim? || before[j].command.Delete?)
      {
        assert ops[i].command.Add?;
        var j :| i < j < |ops| && (ops[j].command.Trim? || ops[j].command.Delete?);
        assert before[j] == ops[j];
      }
      TrimmedIsTidy(before);
    }
  }

  /** The number of entries of a listing is the number of events. */
  lemma {:induction false} ListingLength(codec: Codec, s: seq<Entry>, events: set<Event>)
    requires codec.RoundTrips() && Lists(codec, s, events)
    ensures |s| == |events|
  {
    if s == [] {
      forall e ensures e !in events {
        assert e in events ==> codec.ToEntry(e) in s;
      }
    } else {
      assert EntryOf(codec, s[0], events);
      var e :| e in events && codec.ToEntry(e) == s[0];
      var rest := events - {e};
      forall x | x in rest ensures codec.ToEntry(x) in s[1..] {
        assert codec.parse(codec.stringify(x)) == Some(x) && codec.parse(codec.stringify(e)) == Some(e);
        assert codec.ToEntry(x) in s;
      }
      forall x | x in s[1..] ensures EntryOf(codec, x, rest) {
        assert EntryOf(codec, x, events);
        var y :| y in events && codec.ToEntry(y) == x;
        LessTotal(s[0], x);
        assert y in rest;
      }
      ListingLength(codec, s[1..], rest);
    }
  }

  /** The k greatest of a set of events, in order. */
  ghost predicate Greatest(codec: Codec, kept: seq<Entry>, events: set<Event>, k: nat) {
    && Sorted(kept)
    && |kept| == (if |events| <= k then |events| else k)
    && EntriesOf(codec, kept, events)
    && (forall e, i :: e in events && codec.ToEntry(e) !in kept && 0 <= i < |kept| ==> Less(codec.ToEntry(e), kept[i]))
  }

  lemma DroppedIsLess(all: seq<Entry>, k: nat, x: Entry, i: nat)
    requires Sorted(all) && x in all && x !in Last(all, k) && i < |Last(all, k)|
    ensures Less(x, Last(all, k)[i])
  {
    var dropped := |all| - |Last(all, k)|;
    var j :| 0 <= j < |all| && all[j] == x;
    forall m | dropped <= m < |all| ensures all[m] in Last(all, k) {
      assert Last(all, k)[m - dropped] == all[m];
    }
    assert Less(all[j], all[dropped + i]);
  }

  lemma LastAreGreatest(codec: Codec, all: seq<Entry>, events: set<Event>, k: nat)
    requires codec.RoundTrips() && Lists(codec, all, events)
    ensures Greatest(codec, Last(all, k), events, k)
  {
    ListingLength(codec, all, events);
    LastTwice(all, k);
    forall e, i | e in events && codec.ToEntry(e) !in Last(all, k) && 0 <= i < |Last(all, k)|
      ensures Less(codec.ToEntry(e), Last(all, k)[i])
    {
      DroppedIsLess(all, k, codec.ToEntry(e), i);
    }
  }

  /** The highest hundred entries stored are the hundred greatest of all remembered
      events, in every interleaving. */
  lemma StoredAreTheGreatest(codec: Codec, ops: seq<Op>)
    requires codec.RoundTrips() && RoomAfter(codec, ops).Some?
    ensures var entries := RoomAfter(codec, ops).value.entries;
      && Greatest(codec, Last(entries, MAX_EVENTS_PER_ROOM), Remembered(codec, ops), MAX_EVENTS_PER_ROOM)
      && Sorted(entries) && EntriesOf(codec, entries, Remembered(codec, ops))
  {
    var entries := RoomAfter(codec, ops).value.entries;
    RoomIsTrimmed(codec, ops);
    UntrimmedLists(codec, ops);
    LastAreGreatest(codec, Untrimmed(codec, ops), Remembered(codec, ops), MAX_EVENTS_PER_ROOM);
  }

  /** Once every save has trimmed, nothing else is stored. */
  lemma RoomIsTrimmedOnce(codec: Codec, ops: seq<Op>)
    requires codec.RoundTrips() && RoomAfter(codec, ops).Some? && AllTrimmed(ops)
    ensures var entries := RoomAfter(codec, ops).value.entries;
      && entries == Last(Untrimmed(codec, ops), MAX_EVENTS_PER_ROOM)
      && Greatest(codec, entries, Remembered(codec, ops), MAX_EVENTS_PER_ROOM)
  {
    RoomIsTrimmed(codec, ops);
    StoredAreTheGreatest(codec, ops);
    TrimmedIsTidy(ops);
    RoomIsSmall(codec, ops);
  }

  lemma {:induction false} RoomIsNotEmpty(codec: Codec, ops: seq<Op>)
    ensures RoomAfter(codec, ops).Some? ==> RoomAfter(codec, ops).value.entries != []
  {
    if ops == [] {
    } else {
      var Op(command, at) := ops[|ops| - 1];
      var before := ops[..|ops| - 1];
      RoomIsNotEmpty(codec, before);
      if command.Add? && Lives(codec, before, at) {
        var entries, e := RoomAfter(codec, before).value.entries, codec.ToEntry(command.event);
        InsertLength(Remove(entries, e.member), e);
      }
    }
  }

  // ----- the queries

  lemma {:induction false} ParsedInverse(codec: Codec, s: seq<Entry>, events: set<Event>)
    requires codec.RoundTrips() && EntriesOf(codec, s, events)
    ensures |Parsed(codec, s)| == |s|
    ensures forall i :: 0 <= i < |s| ==> Parsed(codec, s)[i] in events && codec.ToEntry(Parsed(codec, s)[i]) == s[i]
  {
    if s == [] {
    } else {
      assert EntryOf(codec, s[0], events);
      var e :| e in events && codec.ToEntry(e) == s[0];
      assert codec.parse(codec.stringify(e)) == Some(e);
      ParsedInverse(codec, s[1..], events);
    }
  }

  lemma {:induction false} RangeByScoreFilters(s: seq<Entry>, low: int)
    requires Sorted(s)
    ensures Sorted(ZRangeByScore(s, low))
    ensures forall x :: x in ZRangeByScore(s, low) <==> x in s && x.score >= low
  {
    if s == [] {
    } else {
      RangeByScoreFilters(s[1..], low);
      var rest := ZRangeByScore(s[1..], low);
      forall i | 0 <= i < |rest| ensures Less(s[0], rest[i]) {
        assert rest[i] in rest;
        var j :| 0 <= j < |s[1..]| && s[1..][j] == rest[i];
        assert Less(s[0], s[j + 1]);
      }
    }
  }

  /** Nothing from `since` on is missing among the k greatest when there are at most
      k events, or when the oldest of them is older. */
  lemma NewestHolds(codec: Codec, kept: seq<Entry>, events: set<Event>, k: nat, e: Event, since: int)
    requires codec.RoundTrips() && Greatest(codec, kept, events, k) && kept != []
    requires e in events && e.timestamp >= since && (|events| <= k || kept[0].score < since)
    ensures codec.ToEntry(e) in kept
  {
    if |events| <= k {
      AllAreKept(codec, kept, events, e);
    } else {
      assert codec.ToEntry(e) in kept || Less(codec.ToEntry(e), kept[0]);
    }
  }

  /** As many sorted entries of a set of events as there are events are all of them. */
  lemma {:induction false} AllAreKept(codec: Codec, kept: seq<Entry>, events: set<Event>, e: Event)
    requires codec.RoundTrips() && Sorted(kept) && EntriesOf(codec, kept, events) && |kept| == |events| && e in events
    ensures codec.ToEntry(e) in kept
    decreases kept
  {
    if kept == [] {
    } else {
      assert EntryOf(codec, kept[0], events);
      var x :| x in events && codec.ToEntry(x) == kept[0];
      if x != e {
        forall y | y in kept[1..] ensures EntryOf(codec, y, events - {x}) {
          assert EntryOf(codec, y, events);
          var z :| z in events && codec.ToEntry(z) == y;
          LessTotal(kept[0], y);
          assert z in events - {x};
        }
        AllAreKept(codec, kept[1..], events - {x}, e);
      }
    }
  }

  /** getEventsSince returns, in order, remembered events from `since` on, and all
      of them when at most a hundred were saved or the oldest of the highest hundred
      stored is older than `since`. */
  lemma NoMissedEvents(codec: Codec, ops: seq<Op>, now: nat, since: int, result: seq<Event>)
    requires codec.RoundTrips() && Lives(codec, ops, now)
    requires result == Parsed(codec, ZRangeByScore(RoomAfter(codec, ops).value.entries, since))
    ensures forall i, j :: 0 <= i < j < |result| ==> Less(codec.ToEntry(result[i]), codec.ToEntry(result[j]))
    ensures forall e :: e in result ==> e in Remembered(codec, ops) && e.timestamp >= since
    ensures var newest := Last(RoomAfter(codec, ops).value.entries, MAX_EVENTS_PER_ROOM);
      && newest != []
      && (|Remembered(codec, ops)| <= MAX_EVENTS_PER_ROOM || newest[0].score < since ==>
            forall e :: e in Remembered(codec, ops) && e.timestamp >= since ==> e in result)
  {
    RoomIsNotEmpty(codec, ops);
    StoredAreTheGreatest(codec, ops);
    var kept, events := RoomAfter(codec, ops).value.entries, Remembered(codec, ops);
    var found, newest := ZRangeByScore(kept, since), Last(kept, MAX_EVENTS_PER_ROOM);
    RangeByScoreFilters(kept, since);
    ParsedInverse(codec, found, events);
    forall e | e in result ensures e in events && e.timestamp >= since {
      var i :| 0 <= i < |result| && result[i] == e;
      assert found[i] in found;
    }
    if |events| <= MAX_EVENTS_PER_ROOM || newest[0].score < since {
      forall e | e in events && e.timestamp >= since ensures e in result {
        NewestHolds(codec, newest, events, MAX_EVENTS_PER_ROOM, e, since);
        LastTwice(kept, MAX_EVENTS_PER_ROOM);
        ResultHolds(codec, found, result, e);
      }
    }
  }

  lemma ResultHolds(codec: Codec, found: seq<Entry>, result: seq<Event>, e: Event)
    requires codec.RoundTrips() && codec.ToEntry(e) in found && |result| == |found|
    requires forall i :: 0 <= i < |result| ==> codec.ToEntry(result[i]) == found[i]
    ensures e in result
  {
    var i :| 0 <= i < |found| && found[i] == codec.ToEntry(e);
    assert codec.parse(codec.stringify(result[i])) == Some(result[i]);
    assert codec.parse(codec.stringify(e)) == Some(e);
  }

  lemma StoredAreRemembered(codec: Codec, ops: seq<Op>)
    requires codec.RoundTrips() && RoomAfter(codec, ops).Some?
    ensures EntriesOf(codec, RoomAfter(codec, ops).value.entries, Remembered(codec, ops))
  {
    StoredAreTheGreatest(codec, ops);
  }

  lemma ReversedLast(kept: seq<Entry>, n: nat, i: nat)
    requires i < n <= |kept|
    ensures |Reverse(Last(kept, n))| == n && Reverse(Last(kept, n))[n - 1 - i] == kept[|kept| - n + i]
  {
  }

  lemma LastParsed(codec: Codec, kept: seq<Entry>, events: set<Event>, n: nat, result: seq<Event>)
    requires codec.RoundTrips() && EntriesOf(codec, kept, events) && n <= |kept|
    requires result == Reverse(Parsed(codec, Reverse(Last(kept, n))))
    ensures |result| == n && AreLast(codec, result, kept, events)
  {
    var newestFirst := Reverse(Last(kept, n));
    assert EntriesOf(codec, newestFirst, events) by {
      forall x | x in newestFirst ensures EntryOf(codec, x, events) { assert x in kept; }
    }
    ParsedInverse(codec, newestFirst, events);
    forall i | 0 <= i < n ensures result[i] in events && codec.ToEntry(result[i]) == kept[|kept| - n + i] {
      assert result[i] == Parsed(codec, newestFirst)[n - 1 - i];
      ReversedLast(kept, n, i);
    }
  }

  /** getRecentEvents returns the last stored events, oldest first; their number is
      the one asked for, as far as there are so many, exactly for a count of at least
      one or so far below zero that it reaches past the set. */
  lemma RecentEventsAreTheLast(codec: Codec, ops: seq<Op>, now: nat, count: int, result: seq<Event>)
    requires codec.RoundTrips() && Lives(codec, ops, now)
    requires var kept := RoomAfter(codec, ops).value.entries;
      result == Reverse(Parsed(codec, Reverse(Last(kept, Served(count, |kept|)))))
    ensures var kept := RoomAfter(codec, ops).value.entries;
      && |result| == Served(count, |kept|)
      && (|result| == Clamp(0, count, |kept|) <==> count >= 1 || |kept| + count <= 0)
      && AreLast(codec, result, kept, Remembered(codec, ops))
  {
    var kept := RoomAfter(codec, ops).value.entries;
    RoomIsNotEmpty(codec, ops);
    StoredAreRemembered(codec, ops);
    LastParsed(codec, kept, Remembered(codec, ops), Served(count, |kept|), result);
    ServedAsAsked(count, |kept|);
  }

  /** The result is the end of the listing, in its order. */
  ghost predicate AreLast(codec: Codec, result: seq<Event>, kept: seq<Entry>, events: set<Event>) {
    && |result| <= |kept|
    && forall i :: 0 <= i < |result| ==>
      result[i] in events && codec.ToEntry(result[i]) == kept[|kept| - |result| + i]
  }

  lemma ServedAsAsked(count: int, size: nat)
    requires size > 0
    ensures Served(count, size) <= size
    ensures Served(count, size) == Clamp(0, count, size) <==> count >= 1 || size + count <= 0
  {
  }
}
