/**
 The presence registry as the service keeps it: nested Maps updated in place, each method proved to
 be the operation of Presence it implements.
 */
module PresenceRegistry {
  import opened Options
  import opened OrderedMaps
  import opened Presence

  class PresenceService {
    var rooms: Rooms

    constructor ()
      ensures Valid() && rooms == []
    {
      rooms := [];
    }

    ghost predicate Valid()
      reads this
    {
      Ok(rooms)
    }

    method JoinRoom(roomKey: string, entry: Entry)
      requires Valid()
      modifies this
      ensures Valid() && rooms == Join(old(rooms), roomKey, entry)
    {
      JoinEffect(rooms, roomKey, entry, roomKey, entry.socketId);
      RoomOfOk(rooms, roomKey);
      SetEntryOk(RoomOf(rooms, roomKey), entry);
      var room := Get(rooms, roomKey);
      if room.None? {
        room := Some([]);
      }
      rooms := Set(rooms, roomKey, Set(room.value, entry.socketId, entry));
    }

    method Leave(roomKey: string, socketId: string) returns (entry: Option<Entry>)
      requires Valid()
      modifies this
      ensures Valid() && rooms == Remove(old(rooms), roomKey, socketId)
      ensures entry == Find(old(rooms), roomKey, socketId)
    {
      RemoveEffect(rooms, roomKey, socketId, roomKey, socketId);
      var found := Get(rooms, roomKey);
      if found.None? {
        return None;
      }
      entry := Get(found.value, socketId);
      var room := Delete(found.value, socketId);
      if |room| == 0 {
        rooms := Delete(rooms, roomKey);
      } else {
        rooms := Set(rooms, roomKey, room);
      }
    }

    /** Deleting the room under the iterator moves the next one to its position. */
    method LeaveAll(socketId: string) returns (removed: seq<(string, Entry)>)
      requires Valid()
      modifies this
      ensures Valid() && rooms == RemoveEverywhere(old(rooms), socketId)
      ensures removed == EntriesOf(old(rooms), socketId)
    {
      hide RoomOk, Without, EntryOf, RemoveEverywhere, EntriesOf, UniqueKeys;
      RemovedRoomsKept(rooms, socketId);
      removed := [];
      var i := 0;
      ghost var n := 0;
      ghost var all, kept := rooms, [];
      NothingVisited(all, socketId);
      while i < |rooms|
        invariant 0 <= n <= |all| && i == |kept| && rooms == kept + all[n..] && UniqueKeys(rooms)
        invariant kept == RemoveEverywhere(all[..n], socketId) && removed == EntriesOf(all[..n], socketId)
        decreases |all| - n
      {
        assert rooms[..i] == kept && rooms[i] == all[n] && rooms[i + 1..] == all[n + 1..];
        i, removed := VisitRoom(i, socketId, removed);
        VisitedOneMore(all, n, socketId);
        kept := kept + Without(all[n], socketId);
        n := n + 1;
      }
      assert all[..n] == all && all[n..] == [];
    }

    /** One turn of that loop: the socket leaves the room at position i, and the iterator moves on. */
    method VisitRoom(i: nat, socketId: string, removed: seq<(string, Entry)>)
      returns (next: nat, removed': seq<(string, Entry)>)
      requires i < |rooms| && UniqueKeys(rooms) && rooms[i].1 != []
      modifies this
      ensures UniqueKeys(rooms) && rooms == old(rooms[..i]) + Without(old(rooms[i]), socketId) + old(rooms[i + 1..])
      ensures next == i + |Without(old(rooms[i]), socketId)|
      ensures removed' == removed + EntryOf(old(rooms[i]), socketId)
    {
      removed' := removed;
      next := i + 1;
      var (roomKey, room) := rooms[i];
      var entry := Get(room, socketId);
      DeleteMissing(room, socketId);
      if entry.Some? {
        room := Delete(room, socketId);
        SetAt(rooms, i, room);
        DeleteAt(rooms, i);
        rooms := Set(rooms, roomKey, room);
        removed' := removed + [(roomKey, entry.value)];
        if |room| == 0 {
          DeleteAt(rooms, i);
          rooms := Delete(rooms, roomKey);
          next := i;
        }
      }
    }

    /** touch, setCursor, setTyping and setHidden: each edits the entry it finds. */
    method EditFound(roomKey: string, socketId: string, edit: Edit) returns (entry: Option<Entry>)
      requires Valid()
      modifies this
      ensures Valid() && rooms == EditEntry(old(rooms), roomKey, socketId, edit)
      ensures entry == Find(rooms, roomKey, socketId)
    {
      EditEffect(rooms, roomKey, socketId, edit, roomKey, socketId);
      var room := RoomOf(rooms, roomKey);
      var found := Get(room, socketId);
      if found.None? {
        return None;
      }
      entry := Some(Edited(found.value, edit));
      rooms := Set(rooms, roomKey, Set(room, socketId, entry.value));
    }

    method SweepIdle(now: int) returns (changed: seq<(string, Entry)>)
      requires Valid()
      modifies this
      ensures Valid() && rooms == Sweep(old(rooms), now)
      ensures changed == Marked(old(rooms), now)
    {
      hide SweepRoom, MarkedIn, Ok;
      SweepOk(rooms, now);
      changed := [];
      for i := 0 to |rooms|
        invariant |rooms| == |old(rooms)|
        invariant forall k :: 0 <= k < |rooms| ==>
          rooms[k] == if k < i then Sweep(old(rooms), now)[k] else old(rooms)[k]
        invariant changed == Marked(old(rooms)[..i], now)
      {
        assert old(rooms)[..i + 1][..i] == old(rooms)[..i];
        var room, marked := AgeRoom(rooms[i].0, rooms[i].1, now);
        changed := changed + marked;
        rooms := rooms[i := (rooms[i].0, room)];
      }
      assert rooms == Sweep(old(rooms), now) && old(rooms)[..|rooms|] == old(rooms);
    }

    method AgeRoom(roomKey: string, room: Room, now: int) returns (aged: Room, marked: seq<(string, Entry)>)
      ensures aged == SweepRoom(room, now) && marked == MarkedIn(roomKey, room, now)
    {
      aged, marked := room, [];
      for j := 0 to |room|
        invariant |aged| == |room|
        invariant forall k :: 0 <= k < |room| ==> aged[k] == if k < j then SweepRoom(room, now)[k] else room[k]
        invariant marked == MarkedIn(roomKey, room[..j], now)
      {
        assert room[..j + 1][..j] == room[..j];
        var entry := aged[j].1;
        if entry.status != Inactive && now - entry.lastSeen > PRESENCE_IDLE_MS {
          entry := entry.(status := Inactive);
          aged := aged[j := (aged[j].0, entry)];
          marked := marked + [(roomKey, entry)];
        }
      }
      assert room[..|room|] == room;
    }

    method ListVisible(roomKey: string, includeHidden: bool) returns (shown: seq<PublicPresence>)
      ensures shown == List(rooms, roomKey, includeHidden)
    {
      var room := RoomOf(rooms, roomKey);
      var byUser: OrderedMap<string, Entry> := [];
      for i := 0 to |room|
        invariant byUser == Best(room[..i], includeHidden)
      {
        assert room[..i + 1][..i] == room[..i];
        var entry := room[i].1;
        if entry.hidden && !includeHidden {
          continue;
        }
        var existing := Get(byUser, entry.userId);
        if existing.None? || Rank(entry.status) < Rank(existing.value.status) {
          byUser := Set(byUser, entry.userId, entry);
        }
      }
      assert room[..|room|] == room;
      shown := Publish(byUser);
    }

    method Clear()
      modifies this
      ensures Valid() && rooms == []
    {
      rooms := [];
    }
  }

  lemma NothingVisited(all: Rooms, socketId: string)
    ensures RemoveEverywhere(all[..0], socketId) == [] && EntriesOf(all[..0], socketId) == [] && all[0..] == all
  {
  }

  lemma VisitedOneMore(all: Rooms, n: nat, socketId: string)
    requires n < |all|
    ensures RemoveEverywhere(all[..n + 1], socketId) == RemoveEverywhere(all[..n], socketId) + Without(all[n], socketId)
    ensures EntriesOf(all[..n + 1], socketId) == EntriesOf(all[..n], socketId) + EntryOf(all[n], socketId)
  {
    assert all[..n + 1][..n] == all[..n];
  }

  lemma {:induction false} DeleteMissing(room: Room, socketId: string)
    ensures Get(room, socketId).None? ==> Delete(room, socketId) == room
  {
    if room != [] && room[0].0 != socketId {
      DeleteMissing(room[1..], socketId);
    }
  }
}
