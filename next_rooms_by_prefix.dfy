/** `Dungeons/Queries/GetNextRoomsQueryHandler`: every room of the dungeon
    whose id equals the current room's `NextRoomId` or begins with that id's
    first character. */
module NextRoomsByPrefix {
  import opened Common
  import opened GameEntities

  datatype GetNextRoomsQuery = GetNextRoomsQuery(dungeonId: string, currentRoomId: string)

  /** The handler checks nothing: a missing dungeon or a missing current
      room is dereferenced (`NullReferenceException`), and `Substring(0, 1)`
      of an empty `NextRoomId` is an `ArgumentOutOfRangeException`. */
  datatype QueryError = NullReference | ArgumentOutOfRange

  /** When the room test throws: the `||` short-circuits on an id equal to
      `NextRoomId`, so only an empty `NextRoomId` against a non-empty id
      reaches `"".Substring(0, 1)`. */
  predicate Throws(id: string, next: Option<string>) {
    next == Some("") && id != ""
  }

  /** Which rooms the query is meant to admit: with no `NextRoomId` the
      prefix is `""` and every room qualifies; otherwise the id is the
      next id itself or shares its first character. */
  predicate Admits(id: string, next: Option<string>) {
    match next
    case None => true
    case Some(s) => id == s || (|s| >= 1 && |id| >= 1 && id[0] == s[0])
  }

  /** The `Where` lambda on one room:
      `r.Id == next || r.Id.StartsWith(next?.Substring(0, 1) ?? "")`. */
  function RoomTest(id: string, next: Option<string>): (r: Result<bool, QueryError>)
    ensures r.Failure? <==> Throws(id, next)
    ensures r.Failure? ==> r.error == ArgumentOutOfRange
    ensures r.Success? ==> (r.value <==> Admits(id, next))
  {
    match next
    case None => Success(StartsWith(id, ""))
    case Some(s) =>
      if id == s then Success(true)
      else if s == "" then Failure(ArgumentOutOfRange)
      else Success(StartsWith(id, s[..1]))
  }

  /** `.Where(...).ToList()`: rooms are tested in order and the first throw
      ends the query. */
  function Filter(rooms: seq<Room>, next: Option<string>): Result<seq<Room>, QueryError>
    decreases |rooms|
  {
    if rooms == [] then Success([])
    else match RoomTest(rooms[0].id, next)
      case Failure(e) => Failure(e)
      case Success(keep) =>
        match Filter(rooms[1..], next)
        case Failure(e) => Failure(e)
        case Success(rest) => Success(if keep then [rooms[0]] + rest else rest)
  }

  /** `Handle(GetNextRoomsQuery)` on the dungeon collection. The current
      room is only dereferenced inside the lambda, so a dungeon with no
      rooms at all answers `[]` even for an unknown room id. */
  function GetNextRooms(dungeons: map<string, Dungeon>, q: GetNextRoomsQuery): Result<seq<Room>, QueryError> {
    if q.dungeonId !in dungeons then Failure(NullReference)
    else
      var all := AllRooms(dungeons[q.dungeonId].levels);
      match FirstRoomWithId(all, q.currentRoomId)
      case None => if all == [] then Success([]) else Failure(NullReference)
      case Some(c) => Filter(all, all[c].nextRoomId)
  }

  /** The filter fails exactly when some room's test throws, and then with
      `ArgumentOutOfRange`; otherwise it keeps a subsequence. */
  lemma {:induction false} FilterOutcome(rooms: seq<Room>, next: Option<string>)
    ensures Filter(rooms, next).Failure? <==> exists k | 0 <= k < |rooms| :: Throws(rooms[k].id, next)
    ensures Filter(rooms, next).Failure? ==> Filter(rooms, next).error == ArgumentOutOfRange
    ensures Filter(rooms, next).Success? ==> IsSubsequence(Filter(rooms, next).value, rooms)
    decreases |rooms|
  {
    if rooms != [] {
      FilterOutcome(rooms[1..], next);
      if Filter(rooms[1..], next).Success? {
        var rest := Filter(rooms[1..], next).value;
        assert ([rooms[0]] + rest)[1..] == rest;
      }
      if exists k | 0 <= k < |rooms[1..]| :: Throws(rooms[1..][k].id, next) {
        var k :| 0 <= k < |rooms[1..]| && Throws(rooms[1..][k].id, next);
        assert Throws(rooms[k + 1].id, next);
      }
      if exists k | 0 <= k < |rooms| :: Throws(rooms[k].id, next) {
        var k :| 0 <= k < |rooms| && Throws(rooms[k].id, next);
        if k > 0 {
          assert Throws(rooms[1..][k - 1].id, next);
        }
      }
    }
  }

  /** A room is in a successful result exactly when it is one of the rooms
      and the query admits its id. */
  lemma {:induction false} FilterMembership(rooms: seq<Room>, next: Option<string>, room: Room)
    requires Filter(rooms, next).Success?
    ensures room in Filter(rooms, next).value <==> room in rooms && Admits(room.id, next)
    decreases |rooms|
  {
    if rooms != [] {
      FilterMembership(rooms[1..], next, room);
      assert rooms == [rooms[0]] + rooms[1..];
    }
  }

  /** With no `NextRoomId` the prefix is `""` and every room comes back. */
  lemma {:induction false} FilterWithoutNextKeepsAll(rooms: seq<Room>)
    ensures Filter(rooms, None) == Success(rooms)
    decreases |rooms|
  {
    if rooms != [] {
      FilterWithoutNextKeepsAll(rooms[1..]);
      assert [rooms[0]] + rooms[1..] == rooms;
    }
  }

  /** The whole query: its errors, and for a success, a subsequence of all
      rooms, level by level, holding exactly the admitted rooms. */
  lemma GetNextRoomsMeaning(dungeons: map<string, Dungeon>, q: GetNextRoomsQuery, room: Room)
    ensures q.dungeonId !in dungeons ==> GetNextRooms(dungeons, q) == Failure(NullReference)
    ensures q.dungeonId in dungeons && GetNextRooms(dungeons, q).Success? ==>
      var all := AllRooms(dungeons[q.dungeonId].levels);
      && IsSubsequence(GetNextRooms(dungeons, q).value, all)
      && (room in GetNextRooms(dungeons, q).value <==>
            room in all && exists c | 0 <= c < |all| :: FirstRoomWithId(all, q.currentRoomId) == Some(c) && Admits(room.id, all[c].nextRoomId))
  {
    if q.dungeonId in dungeons {
      var all := AllRooms(dungeons[q.dungeonId].levels);
      match FirstRoomWithId(all, q.currentRoomId)
      case None =>
      case Some(c) =>
        FilterOutcome(all, all[c].nextRoomId);
        if GetNextRooms(dungeons, q).Success? {
          FilterMembership(all, all[c].nextRoomId, room);
        }
    }
  }

  /** An unknown current room fails as soon as the dungeon has a room. */
  lemma UnknownRoomIsNullReference(dungeons: map<string, Dungeon>, q: GetNextRoomsQuery)
    requires q.dungeonId in dungeons
    requires forall k | 0 <= k < |AllRooms(dungeons[q.dungeonId].levels)| :: AllRooms(dungeons[q.dungeonId].levels)[k].id != q.currentRoomId
    ensures AllRooms(dungeons[q.dungeonId].levels) != [] <==> GetNextRooms(dungeons, q) == Failure(NullReference)
  {
  }

  /** On the last level (`NextRoomId` null) every room of the dungeon is
      returned, in order. */
  lemma LastLevelReturnsEveryRoom(dungeons: map<string, Dungeon>, q: GetNextRoomsQuery, c: nat)
    requires q.dungeonId in dungeons
    requires var all := AllRooms(dungeons[q.dungeonId].levels);
      FirstRoomWithId(all, q.currentRoomId) == Some(c) && all[c].nextRoomId.None?
    ensures GetNextRooms(dungeons, q) == Success(AllRooms(dungeons[q.dungeonId].levels))
  {
    FilterWithoutNextKeepsAll(AllRooms(dungeons[q.dungeonId].levels));
  }

  /** An empty `NextRoomId` throws exactly when some room id is not empty. */
  lemma EmptyNextIdThrows(rooms: seq<Room>)
    ensures Filter(rooms, Some("")).Failure? <==> exists k | 0 <= k < |rooms| :: rooms[k].id != ""
  {
    FilterOutcome(rooms, Some(""));
  }

  /** Only one character is compared, so a next id `"12a"` on level 12 also
      admits rooms `"1a"` and `"10b"` of levels 1 and 10, but not `"2a"`. */
  lemma OneCharacterPrefixOverreaches()
    ensures Admits("1a", Some("12a")) && Admits("10b", Some("12a")) && !Admits("2a", Some("12a"))
    ensures Filter([Room("1a", None, Plain), Room("2a", None, Plain), Room("10b", None, Plain)], Some("12a"))
         == Success([Room("1a", None, Plain), Room("10b", None, Plain)])
  {
    var next := Some("12a");
    var r1, r2, r3 := Room("1a", None, Plain), Room("2a", None, Plain), Room("10b", None, Plain);
    assert "2a"[..1] != "12a"[..1] by { assert "2a"[..1][0] == '2'; }
    assert RoomTest("1a", next) == Success(true) by { assert StartsWith("1a", "12a"[..1]); }
    assert RoomTest("2a", next) == Success(false);
    assert RoomTest("10b", next) == Success(true) by { assert StartsWith("10b", "12a"[..1]); }
    assert [r1, r2, r3][1..] == [r2, r3];
    assert [r2, r3][1..] == [r3];
    assert [r3][1..] == [];
    assert Filter([], next) == Success([]);
    assert [r3] + [] == [r3];
    assert Filter([r3], next) == Success([r3]);
    assert Filter([r2, r3], next) == Success([r3]);
    assert Filter([r1, r2, r3], next) == Success([r1] + [r3]);
    assert [r1] + [r3] == [r1, r3];
  }
}
