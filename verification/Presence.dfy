/**
 Who is viewing what (backend/src/collaboration/presence.service.ts): a Map of rooms, each a Map of
 sockets, with a listing that shows each user once and a sweep that marks stale sockets idle.
 */
module Presence {
  import opened Options
  import opened OrderedMaps
  import opened Collections

  const PRESENCE_IDLE_MS := 90_000

  datatype Status = Active | Inactive | Typing

  /** profile stands for the session, name, avatar, role and colour, which no operation changes. */
  datatype Entry = Entry(
    socketId: string, userId: string, profile: string, status: Status, lastSeen: int, hidden: bool,
    cursor: Option<(real, real)>, cursorUpdates: nat, typingEvents: nat)

  datatype PublicPresence = PublicPresence(
    userId: string, profile: string, status: Status, hidden: bool, cursor: Option<(real, real)>)

  type Room = OrderedMap<string, Entry>

  type Rooms = OrderedMap<string, Room>

  function RoomOf(rooms: Rooms, roomKey: string): Room {
    var found := Get(rooms, roomKey);
    if found.Some? then found.value else []
  }

  function Find(rooms: Rooms, roomKey: string, socketId: string): Option<Entry> {
    Get(RoomOf(rooms, roomKey), socketId)
  }

  // ---- The operations ----

  /** A room whose last socket leaves is dropped. */
  function WithRoom(rooms: Rooms, roomKey: string, room: Room): Rooms {
    if room == [] then Delete(rooms, roomKey) else Set(rooms, roomKey, room)
  }

  function Join(rooms: Rooms, roomKey: string, entry: Entry): Rooms {
    WithRoom(rooms, roomKey, Set(RoomOf(rooms, roomKey), entry.socketId, entry))
  }

  function Remove(rooms: Rooms, roomKey: string, socketId: string): Rooms {
    if Get(rooms, roomKey).None? then rooms else WithRoom(rooms, roomKey, Delete(RoomOf(rooms, roomKey), socketId))
  }

  function Without(room: (string, Room), socketId: string): Rooms {
    var rest := Delete(room.1, socketId);
    if rest == [] then [] else [(room.0, rest)]
  }

  function RemoveEverywhere(rooms: Rooms, socketId: string): Rooms {
    if rooms == [] then [] else RemoveEverywhere(rooms[..|rooms| - 1], socketId) + Without(rooms[|rooms| - 1], socketId)
  }

  function EntryOf(room: (string, Room), socketId: string): seq<(string, Entry)> {
    var entry := Get(room.1, socketId);
    if entry.Some? then [(room.0, entry.value)] else []
  }

  /** The rooms the socket was in, with its entry there. */
  function EntriesOf(rooms: Rooms, socketId: string): seq<(string, Entry)> {
    if rooms == [] then [] else EntriesOf(rooms[..|rooms| - 1], socketId) + EntryOf(rooms[|rooms| - 1], socketId)
  }

  datatype Edit =
    | Touch(now: int, status: Status)
    | SetCursor(now: int, x: real, y: real)
    | SetTyping(now: int, isTyping: bool)
    | SetHidden(hidden: bool)

  function Edited(e: Entry, edit: Edit): Entry {
    match edit
    case Touch(now, status) => e.(lastSeen := now, status := status)
    case SetCursor(now, x, y) =>
        e.(cursor := Some((x, y)), cursorUpdates := e.cursorUpdates + 1, lastSeen := now, status := Active)
    case SetTyping(now, isTyping) =>
        e.(typingEvents := e.typingEvents + 1, lastSeen := now, status := if isTyping then Typing else Active)
    case SetHidden(hidden) => e.(hidden := hidden)
  }

  function EditEntry(rooms: Rooms, roomKey: string, socketId: string, edit: Edit): Rooms {
    var found := Find(rooms, roomKey, socketId);
    if found.None? then rooms else Set(rooms, roomKey, Set(RoomOf(rooms, roomKey), socketId, Edited(found.value, edit)))
  }

  predicate Stale(e: Entry, now: int) {
    e.status != Inactive && now - e.lastSeen > PRESENCE_IDLE_MS
  }

  function Aged(e: Entry, now: int): Entry {
    if Stale(e, now) then e.(status := Inactive) else e
  }

  function SweepRoom(room: Room, now: int): (r: Room)
    ensures |r| == |room|
    ensures forall i :: 0 <= i < |r| ==> r[i] == (room[i].0, Aged(room[i].1, now))
  {
    if room == [] then []
    else SweepRoom(room[..|room| - 1], now) + [(room[|room| - 1].0, Aged(room[|room| - 1].1, now))]
  }

  function Sweep(rooms: Rooms, now: int): (r: Rooms)
    ensures |r| == |rooms|
    ensures forall i :: 0 <= i < |r| ==> r[i] == (rooms[i].0, SweepRoom(rooms[i].1, now))
  {
    if rooms == [] then []
    else Sweep(rooms[..|rooms| - 1], now) + [(rooms[|rooms| - 1].0, SweepRoom(rooms[|rooms| - 1].1, now))]
  }

  /** The entries a sweep marks, as it leaves them. */
  function MarkedIn(roomKey: string, room: Room, now: int): seq<(string, Entry)> {
    if room == [] then []
    else
      var e := room[|room| - 1].1;
      MarkedIn(roomKey, room[..|room| - 1], now) + if Stale(e, now) then [(roomKey, Aged(e, now))] else []
  }

  function Marked(rooms: Rooms, now: int): seq<(string, Entry)> {
    if rooms == [] then []
    else Marked(rooms[..|rooms| - 1], now) + MarkedIn(rooms[|rooms| - 1].0, rooms[|rooms| - 1].1, now)
  }

  function Rank(s: Status): nat {
    match s case Typing => 0 case Active => 1 case Inactive => 2
  }

  predicate Visible(e: Entry, includeHidden: bool) {
    !e.hidden || includeHidden
  }

  /** One entry per user: the first with the best rank. */
  function Best(room: Room, includeHidden: bool): OrderedMap<string, Entry> {
    if room == [] then []
    else
      var byUser := Best(room[..|room| - 1], includeHidden);
      var e := room[|room| - 1].1;
      var existing := Get(byUser, e.userId);
      if Visible(e, includeHidden) && (existing.None? || Rank(e.status) < Rank(existing.value.status))
      then Set(byUser, e.userId, e) else byUser
  }

  function Public(e: Entry): PublicPresence {
    PublicPresence(e.userId, e.profile, e.status, e.hidden, e.cursor)
  }

  function Publish(byUser: OrderedMap<string, Entry>): (r: seq<PublicPresence>)
    ensures |r| == |byUser|
    ensures forall i :: 0 <= i < |r| ==> r[i] == Public(byUser[i].1)
  {
    seq(|byUser|, i requires 0 <= i < |byUser| => Public(byUser[i].1))
  }

  function List(rooms: Rooms, roomKey: string, includeHidden: bool): seq<PublicPresence> {
    Publish(Best(RoomOf(rooms, roomKey), includeHidden))
  }

  // ---- The invariant ----

  ghost predicate RoomOk(room: Room) {
    UniqueKeys(room) && forall i :: 0 <= i < |room| ==> room[i].1.socketId == room[i].0
  }

  /** No room is empty, and every entry sits under its own socket id, once. */
  ghost predicate Ok(rooms: Rooms) {
    UniqueKeys(rooms) && forall i :: 0 <= i < |rooms| ==> rooms[i].1 != [] && RoomOk(rooms[i].1)
  }

  lemma RoomOfOk(rooms: Rooms, roomKey: string)
    requires Ok(rooms)
    ensures RoomOk(RoomOf(rooms, roomKey))
    ensures RoomOf(rooms, roomKey) == [] <==> Get(rooms, roomKey).None?
  {
    GetHolds(rooms, roomKey);
  }

  lemma SetEntryOk(room: Room, e: Entry)
    requires RoomOk(room)
    ensures RoomOk(Set(room, e.socketId, e)) && Set(room, e.socketId, e) != []
  {
    var r := Set(room, e.socketId, e);
    SetKeepsUnique(room, e.socketId, e);
    forall i | 0 <= i < |r| ensures r[i].1.socketId == r[i].0 {
      SetElements(room, e.socketId, e, r[i]);
    }
  }

  lemma DeleteEntryOk(room: Room, socketId: string)
    requires RoomOk(room)
    ensures RoomOk(Delete(room, socketId))
  {
    var r := Delete(room, socketId);
    DeleteKeepsUnique(room, socketId);
    forall i | 0 <= i < |r| ensures r[i].1.socketId == r[i].0 {
      DeleteElements(room, socketId, r[i]);
    }
  }

  /** Replacing one room keeps the invariant and touches no other. */
  lemma WithRoomKeepsOk(rooms: Rooms, roomKey: string, room: Room, other: string)
    requires Ok(rooms) && RoomOk(room)
    ensures Ok(WithRoom(rooms, roomKey, room))
    ensures RoomOf(WithRoom(rooms, roomKey, room), other) == if other == roomKey then room else RoomOf(rooms, other)
  {
    var after := WithRoom(rooms, roomKey, room);
    if room == [] {
      DeleteKeepsUnique(rooms, roomKey);
      GetAfterDelete(rooms, roomKey, other);
    } else {
      SetKeepsUnique(rooms, roomKey, room);
      GetAfterSet(rooms, roomKey, room, other);
    }
    forall i | 0 <= i < |after| ensures after[i].1 != [] && RoomOk(after[i].1) {
      if room == [] {
        DeleteElements(rooms, roomKey, after[i]);
      } else {
        SetElements(rooms, roomKey, room, after[i]);
      }
    }
  }

  // ---- What each operation does to one entry ----

  lemma JoinEffect(rooms: Rooms, roomKey: string, e: Entry, k: string, s: string)
    requires Ok(rooms)
    ensures Ok(Join(rooms, roomKey, e))
    ensures Find(Join(rooms, roomKey, e), k, s) == if k == roomKey && s == e.socketId then Some(e)
      else Find(rooms, k, s)
  {
    RoomOfOk(rooms, roomKey);
    SetEntryOk(RoomOf(rooms, roomKey), e);
    WithRoomKeepsOk(rooms, roomKey, Set(RoomOf(rooms, roomKey), e.socketId, e), k);
    GetAfterSet(RoomOf(rooms, roomKey), e.socketId, e, s);
  }

  lemma RemoveEffect(rooms: Rooms, roomKey: string, socketId: string, k: string, s: string)
    requires Ok(rooms)
    ensures Ok(Remove(rooms, roomKey, socketId))
    ensures Find(Remove(rooms, roomKey, socketId), k, s) == if k == roomKey && s == socketId then None
      else Find(rooms, k, s)
  {
    RoomOfOk(rooms, roomKey);
    DeleteEntryOk(RoomOf(rooms, roomKey), socketId);
    WithRoomKeepsOk(rooms, roomKey, Delete(RoomOf(rooms, roomKey), socketId), k);
    GetAfterDelete(RoomOf(rooms, roomKey), socketId, s);
  }

  lemma EditEffect(rooms: Rooms, roomKey: string, socketId: string, edit: Edit, k: string, s: string)
    requires Ok(rooms)
    ensures Ok(EditEntry(rooms, roomKey, socketId, edit))
    ensures var before := Find(rooms, k, s);
            Find(EditEntry(rooms, roomKey, socketId, edit), k, s)
            == if k == roomKey && s == socketId && before.Some? then Some(Edited(before.value, edit)) else before
  {
    var found := Find(rooms, roomKey, socketId);
    if found.Some? {
      RoomOfOk(rooms, roomKey);
      GetHolds(RoomOf(rooms, roomKey), socketId);
      assert found.value.socketId == socketId;
      JoinEffect(rooms, roomKey, Edited(found.value, edit), k, s);
    }
  }

  /** A socket that was not in the room can join and leave without a trace, order included. */
  lemma LeaveUndoesJoin(rooms: Rooms, roomKey: string, e: Entry)
    requires Ok(rooms) && Find(rooms, roomKey, e.socketId).None?
    ensures Remove(Join(rooms, roomKey, e), roomKey, e.socketId) == rooms
  {
    var room := RoomOf(rooms, roomKey);
    var joined := Set(room, e.socketId, e);
    RoomOfOk(rooms, roomKey);
    DeleteUndoesSet(room, e.socketId, e);
    GetAfterSet(rooms, roomKey, joined, roomKey);
    if room == [] {
      DeleteUndoesSet(rooms, roomKey, joined);
    } else {
      SetTwice(rooms, roomKey, joined, room);
      SetSame(rooms, roomKey, room);
    }
  }

  // ---- Leaving every room ----

  lemma {:induction false} GetInConcat<K, V>(a: OrderedMap<K, V>, b: OrderedMap<K, V>, k: K)
    ensures Get(a + b, k) == if Get(a, k).Some? then Get(a, k) else Get(b, k)
  {
    if a == [] {
      assert a + b == b;
    } else {
      assert (a + b)[1..] == a[1..] + b;
      if a[0].0 != k {
        GetInConcat(a[1..], b, k);
      }
    }
  }

  lemma {:induction false} RemovedRoomWasThere(rooms: Rooms, socketId: string, r: (string, Room))
    requires r in RemoveEverywhere(rooms, socketId)
    ensures exists q :: q in rooms && q.0 == r.0
  {
    var n := |rooms| - 1;
    assert rooms == rooms[..n] + [rooms[n]];
    if r in RemoveEverywhere(rooms[..n], socketId) {
      RemovedRoomWasThere(rooms[..n], socketId, r);
      var q :| q in rooms[..n] && q.0 == r.0;
      assert q in rooms;
    } else {
      assert rooms[n] in rooms && r.0 == rooms[n].0;
    }
  }

  lemma AppendKeepsOk(a: Rooms, b: (string, Room))
    requires Ok(a) && b.1 != [] && RoomOk(b.1) && forall r :: r in a ==> r.0 != b.0
    ensures Ok(a + [b])
  {
    hide RoomOk;
    forall i | 0 <= i < |a| ensures a[i].0 != b.0 {
      assert a[i] in a;
    }
  }

  lemma PrefixOk(rooms: Rooms, n: nat)
    requires Ok(rooms) && n <= |rooms|
    ensures Ok(rooms[..n])
  {
    hide RoomOk;
  }

  lemma {:induction false} RemovedRoomsKept(rooms: Rooms, socketId: string)
    requires Ok(rooms)
    ensures Ok(RemoveEverywhere(rooms, socketId))
    ensures forall r :: r in RemoveEverywhere(rooms, socketId) ==> exists q :: q in rooms && q.0 == r.0
  {
    forall r | r in RemoveEverywhere(rooms, socketId) ensures exists q :: q in rooms && q.0 == r.0 {
      RemovedRoomWasThere(rooms, socketId, r);
    }
    if rooms != [] {
      hide RoomOk;
      var n := |rooms| - 1;
      var before := RemoveEverywhere(rooms[..n], socketId);
      PrefixOk(rooms, n);
      RemovedRoomsKept(rooms[..n], socketId);
      DeleteEntryOk(rooms[n].1, socketId);
      forall r | r in before ensures r.0 != rooms[n].0 {
        var q :| q in rooms[..n] && q.0 == r.0;
      }
      if Delete(rooms[n].1, socketId) == [] {
        assert RemoveEverywhere(rooms, socketId) == before;
      } else {
        AppendKeepsOk(before, (rooms[n].0, Delete(rooms[n].1, socketId)));
      }
    }
  }

  lemma FindInConcat(a: Rooms, b: (string, Room), k: string, s: string)
    requires Get(a, b.0).None?
    ensures Find(a + [b], k, s) == if k == b.0 then Get(b.1, s) else Find(a, k, s)
  {
    GetInConcat(a, [b], k);
  }

  /** The last room, less the socket. */
  lemma FindWithout(a: Rooms, b: (string, Room), socketId: string, k: string, s: string)
    requires Get(a, b.0).None? && RoomOk(b.1)
    ensures Find(a + Without(b, socketId), k, s) == if k != b.0 then Find(a, k, s) else if s == socketId then None
      else Get(b.1, s)
  {
    var rest := Delete(b.1, socketId);
    GetAfterDelete(b.1, socketId, s);
    if rest == [] {
      assert a + Without(b, socketId) == a;
    } else {
      FindInConcat(a, (b.0, rest), k, s);
    }
  }

  /** Afterwards the socket is nowhere, every other entry is where it was, and no empty room stays. */
  lemma {:induction false} RemoveEverywhereEffect(rooms: Rooms, socketId: string, k: string, s: string)
    requires Ok(rooms)
    ensures Ok(RemoveEverywhere(rooms, socketId))
    ensures Find(RemoveEverywhere(rooms, socketId), k, s) == if s == socketId then None else Find(rooms, k, s)
  {
    RemovedRoomsKept(rooms, socketId);
    if rooms != [] {
      hide Find, Without;
      var n := |rooms| - 1;
      var before := RemoveEverywhere(rooms[..n], socketId);
      RemoveEverywhereEffect(rooms[..n], socketId, k, s);
      RemovedRoomsKept(rooms[..n], socketId);
      assert rooms == rooms[..n] + [rooms[n]];
      GetHolds(before, rooms[n].0);
      GetHolds(rooms[..n], rooms[n].0);
      FindInConcat(rooms[..n], rooms[n], k, s);
      FindWithout(before, rooms[n], socketId, k, s);
    }
  }

  /** What is returned is exactly what was removed. */
  lemma {:induction false} EntriesAreThose(rooms: Rooms, socketId: string, k: string, e: Entry)
    requires Ok(rooms)
    ensures (k, e) in EntriesOf(rooms, socketId) <==> Find(rooms, k, socketId) == Some(e)
  {
    if rooms != [] {
      var n := |rooms| - 1;
      EntriesAreThose(rooms[..n], socketId, k, e);
      assert rooms == rooms[..n] + [rooms[n]];
      GetInConcat(rooms[..n], [rooms[n]], k);
      GetHolds(rooms[..n], k);
    }
  }

  // ---- The idle sweep ----

  lemma {:induction false} GetAfterSweepRoom(room: Room, now: int, s: string)
    ensures Get(SweepRoom(room, now), s) == if Get(room, s).Some? then Some(Aged(Get(room, s).value, now)) else None
    decreases |room|
  {
    if room != [] {
      assert SweepRoom(room, now)[1..] == SweepRoom(room[1..], now);
      GetAfterSweepRoom(room[1..], now, s);
    }
  }

  lemma {:induction false} GetAfterSweep(rooms: Rooms, now: int, k: string)
    ensures Get(Sweep(rooms, now), k) == if Get(rooms, k).Some? then Some(SweepRoom(Get(rooms, k).value, now)) else None
    decreases |rooms|
  {
    if rooms != [] {
      assert Sweep(rooms, now)[1..] == Sweep(rooms[1..], now);
      GetAfterSweep(rooms[1..], now, k);
    }
  }

  lemma SweepRoomOk(room: Room, now: int)
    requires RoomOk(room)
    ensures RoomOk(SweepRoom(room, now))
  {
  }

  lemma SweepOk(rooms: Rooms, now: int)
    requires Ok(rooms)
    ensures Ok(Sweep(rooms, now))
  {
    hide RoomOk;
    var after := Sweep(rooms, now);
    forall i | 0 <= i < |after| ensures after[i].1 != [] && RoomOk(after[i].1) {
      SweepRoomOk(rooms[i].1, now);
    }
  }

  /** Exactly the stale entries turn idle; nothing else about any entry changes, and none stays stale. */
  lemma SweepEffect(rooms: Rooms, now: int, k: string, s: string)
    requires Ok(rooms)
    ensures Ok(Sweep(rooms, now))
    ensures var before := Find(rooms, k, s);
            Find(Sweep(rooms, now), k, s) == if before.Some? then Some(Aged(before.value, now)) else None
    ensures var after := Find(Sweep(rooms, now), k, s); after.Some? ==> !Stale(after.value, now)
  {
    hide SweepRoom, Sweep, Ok;
    SweepOk(rooms, now);
    GetAfterSweep(rooms, now, k);
    GetAfterSweepRoom(RoomOf(rooms, k), now, s);
  }

  lemma {:induction false} MarkedInAre(roomKey: string, room: Room, now: int, p: (string, Entry))
    ensures p in MarkedIn(roomKey, room, now) <==>
            p.0 == roomKey && exists i :: 0 <= i < |room| && Stale(room[i].1, now) && p.1 == Aged(room[i].1, now)
  {
    if room != [] {
      var n := |room| - 1;
      MarkedInAre(roomKey, room[..n], now, p);
      assert room == room[..n] + [room[n]];
      if i :| 0 <= i < |room| && Stale(room[i].1, now) && p.1 == Aged(room[i].1, now) {
        assert i < n ==> room[..n][i] == room[i];
      }
    }
  }

  lemma {:induction false} MarkedAre(rooms: Rooms, now: int, p: (string, Entry))
    ensures p in Marked(rooms, now) <==> exists r :: r in rooms && p in MarkedIn(r.0, r.1, now)
  {
    if rooms != [] {
      var n := |rooms| - 1;
      MarkedAre(rooms[..n], now, p);
      assert rooms == rooms[..n] + [rooms[n]];
    }
  }

  lemma StaleAt(rooms: Rooms, now: int, k: string, e: Entry) returns (e': Entry)
    requires Ok(rooms) && (k, e) in Marked(rooms, now)
    ensures Find(rooms, k, e.socketId) == Some(e') && Stale(e', now) && e == e'.(status := Inactive)
  {
    MarkedAre(rooms, now, (k, e));
    var i :| 0 <= i < |rooms| && (k, e) in MarkedIn(rooms[i].0, rooms[i].1, now);
    var room := rooms[i].1;
    MarkedInAre(rooms[i].0, room, now, (k, e));
    var j :| 0 <= j < |room| && Stale(room[j].1, now) && e == Aged(room[j].1, now);
    GetAt(rooms, i);
    GetAt(room, j);
    e' := room[j].1;
  }

  /** A sweep returns exactly the entries it changed. */
  lemma MarkedAreTheChanged(rooms: Rooms, now: int, k: string, s: string, e: Entry)
    requires Ok(rooms)
    ensures (k, e) in Marked(rooms, now) && e.socketId == s
       <==> Find(Sweep(rooms, now), k, s) == Some(e) && Find(rooms, k, s) != Find(Sweep(rooms, now), k, s)
  {
    SweepEffect(rooms, now, k, s);
    if (k, e) in Marked(rooms, now) && e.socketId == s {
      var e' := StaleAt(rooms, now, k, e);
    } else if Find(rooms, k, s).Some? && Stale(Find(rooms, k, s).value, now)
        && e == Aged(Find(rooms, k, s).value, now) {
      var room := RoomOf(rooms, k);
      RoomOfOk(rooms, k);
      GetHolds(rooms, k);
      GetHolds(room, s);
      assert (k, room) in rooms;
      var j :| 0 <= j < |room| && room[j] == (s, Find(rooms, k, s).value);
      MarkedInAre(k, room, now, (k, e));
      MarkedAre(rooms, now, (k, e));
    }
  }

  lemma {:induction false} MarkedInOnce(roomKey: string, room: Room, now: int)
    requires RoomOk(room)
    ensures Distinct(MarkedIn(roomKey, room, now))
  {
    if room != [] {
      var n := |room| - 1;
      MarkedInOnce(roomKey, room[..n], now);
      var last := (roomKey, Aged(room[n].1, now));
      MarkedInAre(roomKey, room[..n], now, last);
      assert forall i :: 0 <= i < n ==> room[i].1.socketId != room[n].1.socketId;
    }
  }

  /** A sweep returns no entry twice. */
  lemma {:induction false} MarkedOnce(rooms: Rooms, now: int)
    requires Ok(rooms)
    ensures Distinct(Marked(rooms, now))
  {
    hide MarkedIn;
    if rooms != [] {
      var n := |rooms| - 1;
      var before, last := Marked(rooms[..n], now), MarkedIn(rooms[n].0, rooms[n].1, now);
      MarkedOnce(rooms[..n], now);
      MarkedInOnce(rooms[n].0, rooms[n].1, now);
      forall p | p in before ensures p !in last {
        MarkedAre(rooms[..n], now, p);
        var r :| r in rooms[..n] && p in MarkedIn(r.0, r.1, now);
        MarkedInAre(r.0, r.1, now, p);
        MarkedInAre(rooms[n].0, rooms[n].1, now, p);
      }
      DistinctConcat(before, last);
    }
  }

  lemma LaterRoomSweepAbsorbs(room: Room, a: int, b: int)
    requires a <= b
    ensures SweepRoom(SweepRoom(room, a), b) == SweepRoom(room, b)
  {
    forall i | 0 <= i < |room| ensures Aged(Aged(room[i].1, a), b) == Aged(room[i].1, b) {
    }
  }

  /** A later sweep does all that a sweep before it did. */
  lemma LaterSweepAbsorbs(rooms: Rooms, a: int, b: int)
    requires a <= b
    ensures Sweep(Sweep(rooms, a), b) == Sweep(rooms, b)
  {
    hide SweepRoom;
    forall i | 0 <= i < |rooms| ensures Sweep(Sweep(rooms, a), b)[i] == Sweep(rooms, b)[i] {
      LaterRoomSweepAbsorbs(rooms[i].1, a, b);
    }
  }

  /** A touch, a cursor move or typing keeps a socket from being marked for the idle time, and not a moment longer. */
  lemma ActivityLasts(rooms: Rooms, roomKey: string, socketId: string, edit: Edit, later: int)
    requires Ok(rooms) && !edit.SetHidden? && (edit.Touch? ==> edit.status != Inactive)
    requires Find(rooms, roomKey, socketId).Some?
    ensures var after := Find(Sweep(EditEntry(rooms, roomKey, socketId, edit), later), roomKey, socketId);
            after.Some? && (after.value.status == Inactive <==> later - edit.now > PRESENCE_IDLE_MS)
  {
    hide Sweep;
    EditEffect(rooms, roomKey, socketId, edit, roomKey, socketId);
    SweepEffect(EditEntry(rooms, roomKey, socketId, edit), later, roomKey, socketId);
  }

  // ---- The listing ----

  /** Entry i is the one to show: visible, and no visible socket of its user is better, or as good and earlier. */
  ghost predicate Chosen(room: Room, includeHidden: bool, i: int) {
    && 0 <= i < |room| && Visible(room[i].1, includeHidden)
    && forall j :: 0 <= j < |room| && SameUser(room, includeHidden, i, j) ==> NoBetter(room, i, j)
  }

  ghost predicate SameUser(room: Room, includeHidden: bool, i: int, j: int)
    requires 0 <= i < |room| && 0 <= j < |room|
  {
    Visible(room[j].1, includeHidden) && room[j].1.userId == room[i].1.userId
  }

  ghost predicate NoBetter(room: Room, i: int, j: int)
    requires 0 <= i < |room| && 0 <= j < |room|
  {
    Rank(room[i].1.status) < Rank(room[j].1.status) || (Rank(room[i].1.status) == Rank(room[j].1.status) && i <= j)
  }

  /** A visible socket of the same user with a better status. */
  ghost predicate Outranks(e: Entry, shown: Entry, includeHidden: bool) {
    Visible(e, includeHidden) && e.userId == shown.userId && Rank(e.status) < Rank(shown.status)
  }

  lemma ChosenExtends(room: Room, includeHidden: bool, i: nat)
    requires room != [] && Chosen(room[..|room| - 1], includeHidden, i)
    ensures Chosen(room, includeHidden, i) <==> !Outranks(room[|room| - 1].1, room[i].1, includeHidden)
  {
    var n := |room| - 1;
    if Chosen(room, includeHidden, i) && SameUser(room, includeHidden, i, n) {
      assert NoBetter(room, i, n);
    }
    forall j | 0 <= j < n && SameUser(room, includeHidden, i, j) ensures NoBetter(room, i, j) {
      assert SameUser(room[..n], includeHidden, i, j) && NoBetter(room[..n], i, j);
    }
  }

  ghost predicate NoneOf(room: Room, includeHidden: bool, user: string) {
    forall j :: 0 <= j < |room| ==> !(Visible(room[j].1, includeHidden) && room[j].1.userId == user)
  }

  /** The last entry is chosen when it beats the one chosen among the others, or stands alone. */
  lemma LastChosen(room: Room, includeHidden: bool, old': Option<nat>)
    requires room != [] && Visible(room[|room| - 1].1, includeHidden)
    requires old'.Some? ==> Chosen(room[..|room| - 1], includeHidden, old'.value)
    requires old'.Some? ==> room[old'.value].1.userId == room[|room| - 1].1.userId
    requires old'.Some? ==> Rank(room[|room| - 1].1.status) < Rank(room[old'.value].1.status)
    requires old'.None? ==> NoneOf(room[..|room| - 1], includeHidden, room[|room| - 1].1.userId)
    ensures Chosen(room, includeHidden, |room| - 1)
  {
    var n := |room| - 1;
    forall j | 0 <= j < |room| && SameUser(room, includeHidden, n, j) ensures NoBetter(room, n, j) {
      if j < n {
        assert room[..n][j] == room[j];
        assert SameUser(room[..n], includeHidden, old'.value, j) && NoBetter(room[..n], old'.value, j);
      }
    }
  }

  /** A user's entry in the listing is the chosen one, and a user without a visible socket has none. */
  lemma {:induction false} BestIsChosen(room: Room, includeHidden: bool, user: string) returns (i: Option<nat>)
    ensures UniqueKeys(Best(room, includeHidden))
    ensures i.Some? ==> i.value < |room| && Chosen(room, includeHidden, i.value) && room[i.value].1.userId == user
    ensures i.None? ==> NoneOf(room, includeHidden, user)
    ensures Get(Best(room, includeHidden), user) == if i.Some? then Some(room[i.value].1) else None
    decreases |room|
  {
    if room == [] {
      i := None;
    } else {
      var n := |room| - 1;
      var e := room[n].1;
      var byUser := Best(room[..n], includeHidden);
      i := BestIsChosen(room[..n], includeHidden, user);
      SetKeepsUnique(byUser, e.userId, e);
      GetAfterSet(byUser, e.userId, e, user);
      if i.Some? {
        ChosenExtends(room, includeHidden, i.value);
      }
      if Visible(e, includeHidden) && e.userId == user && (i.None? || Rank(e.status) < Rank(room[i.value].1.status)) {
        LastChosen(room, includeHidden, i);
        i := Some(n);
      } else {
        assert i.None? ==> forall j :: 0 <= j < n ==> room[..n][j] == room[j];
      }
    }
  }

  /** At most one entry of a user can be chosen. */
  lemma ChosenOnce(room: Room, includeHidden: bool, i: nat, j: nat)
    requires Chosen(room, includeHidden, i) && Chosen(room, includeHidden, j) && room[i].1.userId == room[j].1.userId
    ensures i == j
  {
    assert SameUser(room, includeHidden, i, j) && SameUser(room, includeHidden, j, i);
    assert NoBetter(room, i, j) && NoBetter(room, j, i);
  }

  lemma ShownIsChosen(room: Room, includeHidden: bool, a: nat) returns (i: nat)
    requires a < |Best(room, includeHidden)|
    ensures i < |room| && Chosen(room, includeHidden, i)
      && Best(room, includeHidden)[a] == (room[i].1.userId, room[i].1)
  {
    hide Best, Chosen;
    var byUser := Best(room, includeHidden);
    var found := BestIsChosen(room, includeHidden, byUser[a].0);
    GetAt(byUser, a);
    i := found.value;
  }

  lemma ChosenIsShown(room: Room, includeHidden: bool, i: nat) returns (a: nat)
    requires Chosen(room, includeHidden, i)
    ensures a < |Best(room, includeHidden)| && Best(room, includeHidden)[a] == (room[i].1.userId, room[i].1)
  {
    var byUser := Best(room, includeHidden);
    var found := BestIsChosen(room, includeHidden, room[i].1.userId);
    ChosenOnce(room, includeHidden, found.value, i);
    GetHolds(byUser, room[i].1.userId);
    a :| 0 <= a < |byUser| && byUser[a] == (room[i].1.userId, room[i].1);
  }

  /** Every user with a visible socket has a chosen one. */
  lemma VisibleHasChosen(room: Room, includeHidden: bool, j: nat) returns (i: nat)
    requires j < |room| && Visible(room[j].1, includeHidden)
    ensures i < |room| && Chosen(room, includeHidden, i) && room[i].1.userId == room[j].1.userId
  {
    var found := BestIsChosen(room, includeHidden, room[j].1.userId);
    i := found.value;
  }

  ghost predicate ChosenAs(room: Room, includeHidden: bool, p: PublicPresence, i: int) {
    0 <= i < |room| && Chosen(room, includeHidden, i) && p == Public(room[i].1)
  }

  ghost predicate Shows(shown: seq<PublicPresence>, user: string) {
    exists a :: 0 <= a < |shown| && shown[a].userId == user
  }

  /** The listing holds the chosen sockets, one for each user with a visible socket, and nothing else. */
  lemma ListShowsUsersOnce(rooms: Rooms, roomKey: string, includeHidden: bool)
    ensures var shown := List(rooms, roomKey, includeHidden);
            forall a, b :: 0 <= a < b < |shown| ==> shown[a].userId != shown[b].userId
    ensures forall p ::
              p in List(rooms, roomKey, includeHidden) <==>
              exists i :: ChosenAs(RoomOf(rooms, roomKey), includeHidden, p, i)
    ensures var room := RoomOf(rooms, roomKey);
            forall j :: 0 <= j < |room| && Visible(room[j].1, includeHidden) ==>
                Shows(List(rooms, roomKey, includeHidden), room[j].1.userId)
  {
    hide Best, Chosen;
    var room := RoomOf(rooms, roomKey);
    var byUser := Best(room, includeHidden);
    var shown := List(rooms, roomKey, includeHidden);
    var any := BestIsChosen(room, includeHidden, "");
    forall j | 0 <= j < |room| && Visible(room[j].1, includeHidden) ensures Shows(shown, room[j].1.userId) {
      var i := VisibleHasChosen(room, includeHidden, j);
      var a := ChosenIsShown(room, includeHidden, i);
      assert shown[a].userId == room[j].1.userId;
    }
    forall a | 0 <= a < |shown| ensures shown[a].userId == byUser[a].0 {
      var i := ShownIsChosen(room, includeHidden, a);
    }
    forall p ensures p in shown <==> exists i :: ChosenAs(room, includeHidden, p, i) {
      if p in shown {
        var a :| 0 <= a < |shown| && shown[a] == p;
        var i := ShownIsChosen(room, includeHidden, a);
        assert ChosenAs(room, includeHidden, p, i);
      }
      if i :| ChosenAs(room, includeHidden, p, i) {
        var a := ChosenIsShown(room, includeHidden, i);
        assert shown[a] == p;
      }
    }
  }

  /** Entry i belongs to the user and may be shown. */
  ghost predicate Candidate(room: Room, includeHidden: bool, user: string, i: int) {
    0 <= i < |room| && room[i].1.userId == user && (includeHidden || !room[i].1.hidden)
  }

  /**
   A user with any visible socket typing is shown as typing, one with all of them idle as idle, others as active,
   with the data of the first socket of that status.
   */
  lemma ShownStatus(rooms: Rooms, roomKey: string, includeHidden: bool, p: PublicPresence) returns (i: nat)
    requires p in List(rooms, roomKey, includeHidden)
    ensures var room := RoomOf(rooms, roomKey);
      && Candidate(room, includeHidden, p.userId, i) && p == Public(room[i].1)
      && p.profile == room[i].1.profile && p.status == room[i].1.status && p.hidden == room[i].1.hidden
      && p.cursor == room[i].1.cursor
      && (forall j :: 0 <= j < i && Candidate(room, includeHidden, p.userId, j) ==> room[j].1.status != p.status)
    ensures var room := RoomOf(rooms, roomKey);
      && (p.status == Typing <==> exists j :: Candidate(room, includeHidden, p.userId, j) && room[j].1.status == Typing)
      && (p.status == Inactive
         <==> forall j :: Candidate(room, includeHidden, p.userId, j) ==> room[j].1.status == Inactive)
  {
    hide Best, RoomOf;
    ListShowsUsersOnce(rooms, roomKey, includeHidden);
    var room := RoomOf(rooms, roomKey);
    var k :| ChosenAs(room, includeHidden, p, k);
    i := k;
    forall j | Candidate(room, includeHidden, p.userId, j) ensures NoBetter(room, i, j) {
      assert SameUser(room, includeHidden, i, j);
    }
  }

  function AfterEdits(e: Entry, edits: seq<Edit>): Entry {
    if edits == [] then e else Edited(AfterEdits(e, edits[..|edits| - 1]), edits[|edits| - 1])
  }

  function CursorMoves(edits: seq<Edit>): nat {
    if edits == [] then 0 else CursorMoves(edits[..|edits| - 1]) + if edits[|edits| - 1].SetCursor? then 1 else 0
  }

  function TypingChanges(edits: seq<Edit>): nat {
    if edits == [] then 0 else TypingChanges(edits[..|edits| - 1]) + if edits[|edits| - 1].SetTyping? then 1 else 0
  }

  /** Whatever is edited, an entry keeps its identity and counts its cursor moves and typing events. */
  lemma {:induction false} EditsAddUp(e: Entry, edits: seq<Edit>)
    ensures var e' := AfterEdits(e, edits);
      && e'.socketId == e.socketId && e'.userId == e.userId && e'.profile == e.profile
      && e'.cursorUpdates == e.cursorUpdates + CursorMoves(edits)
      && e'.typingEvents == e.typingEvents + TypingChanges(edits)
  {
    if edits != [] {
      EditsAddUp(e, edits[..|edits| - 1]);
    }
  }

  /** The last edit has the last word: when the socket was seen, where its cursor is, whether it types or hides. */
  lemma LastEdit(e: Entry, edits: seq<Edit>)
    requires edits != []
    ensures var e' := AfterEdits(e, edits);
            var before := AfterEdits(e, edits[..|edits| - 1]);
      match edits[|edits| - 1]
      case Touch(now, status) => e'.lastSeen == now && e'.status == status && e'.hidden == before.hidden
      case SetCursor(now, x, y) => e'.lastSeen == now && e'.status == Active && e'.cursor == Some((x, y))
      case SetTyping(now, isTyping) => e'.lastSeen == now && (e'.status == Typing <==> isTyping)
          && e'.status != Inactive
      case SetHidden(hidden) => e'.hidden == hidden && e'.lastSeen == before.lastSeen && e'.status == before.status
  {
  }

  // ---- Every reachable registry ----

  datatype Action =
    | Joining(roomKey: string, entry: Entry)
    | Leaving(roomKey: string, socketId: string)
    | LeavingAll(socketId: string)
    | Editing(roomKey: string, socketId: string, edit: Edit)
    | Sweeping(now: int)
    | Clearing

  function Apply(rooms: Rooms, a: Action): Rooms {
    match a
    case Joining(k, e) => Join(rooms, k, e)
    case Leaving(k, s) => Remove(rooms, k, s)
    case LeavingAll(s) => RemoveEverywhere(rooms, s)
    case Editing(k, s, edit) => EditEntry(rooms, k, s, edit)
    case Sweeping(now) => Sweep(rooms, now)
    case Clearing => []
  }

  function Run(rooms: Rooms, actions: seq<Action>): Rooms
    decreases |actions|
  {
    if actions == [] then rooms else Run(Apply(rooms, actions[0]), actions[1..])
  }

  lemma ApplyKeepsOk(rooms: Rooms, a: Action)
    requires Ok(rooms)
    ensures Ok(Apply(rooms, a))
  {
    match a
    case Joining(k, e) => JoinEffect(rooms, k, e, k, "");
    case Leaving(k, s) => RemoveEffect(rooms, k, s, k, s);
    case LeavingAll(s) => RemoveEverywhereEffect(rooms, s, "", s);
    case Editing(k, s, edit) => EditEffect(rooms, k, s, edit, k, s);
    case Sweeping(now) => SweepEffect(rooms, now, "", "");
    case Clearing =>
  }

  lemma {:induction false} RunKeepsOk(rooms: Rooms, actions: seq<Action>)
    requires Ok(rooms)
    ensures Ok(Run(rooms, actions))
    decreases |actions|
  {
    if actions != [] {
      ApplyKeepsOk(rooms, actions[0]);
      RunKeepsOk(Apply(rooms, actions[0]), actions[1..]);
    }
  }
}
