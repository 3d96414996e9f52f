/** `EnterRoom/Queries/EnterRoomQueryHandler`: look a room up by id and
    describe what happens on entering it as one event line, together with
    the number of the level that holds it. */
module EnterRoom {
  import opened Common
  import opened GameEntities

  datatype EnterRoomQuery = EnterRoomQuery(dungeonId: string, nextRoomId: string)

  /** `RoomProgress`: `RoomId` is null when the room does not exist. */
  datatype RoomProgress = RoomProgress(roomId: Option<string>, level: Int32, events: seq<string>)

  /** `KeyNotFoundException("Dungeon {id} not found")`. */
  datatype QueryError = KeyNotFound(message: string)

  const NO_SUCH_ROOM: string := "La salle n'existe pas"
  const EMPTY_ROOM: string := "La salle est vide..."

  /** The `switch (room)`. A combat room with no monster matches no guarded
      case and falls through to the empty-room line. */
  function RoomEvent(room: Option<Room>): (e: string)
    ensures room.None? <==> e == NO_SUCH_ROOM
  {
    match room
    case None => NO_SUCH_ROOM
    case Some(r) =>
      var e := match r.kind
        case Combat(n) =>
          if n > 0 then "Vous affrontez " + IntToString(n) + " monstre(s) !" else EMPTY_ROOM
        case Treasure(p) => "Vous trouvez " + IntToString(p) + " pièces d'or !"
        case Trap(d) => "Vous tombez dans un piège ! Dégâts : " + IntToString(d)
        case Boss(name) => "Vous rencontrez le " + name + " !"
        case Plain => EMPTY_ROOM;
      assert e[..9] == NO_SUCH_ROOM[..9] ==> e[9] != NO_SUCH_ROOM[9];
      e
  }

  /** `Handle(EnterRoomQuery)` on the dungeon collection. */
  function Enter(dungeons: map<string, Dungeon>, q: EnterRoomQuery): Result<RoomProgress, QueryError> {
    if q.dungeonId !in dungeons then Failure(KeyNotFound("Dungeon " + q.dungeonId + " not found"))
    else
      var levels := dungeons[q.dungeonId].levels;
      var all := AllRooms(levels);
      var room := match FirstRoomWithId(all, q.nextRoomId)
        case None => None
        case Some(k) => Some(all[k]);
      var level := match FirstLevelWithRoom(levels, q.nextRoomId)
        case None => 0
        case Some(i) => levels[i].number;
      Success(RoomProgress(if room.Some? then Some(room.value.id) else None, level, [RoomEvent(room)]))
  }

  /** A missing dungeon is the only error; otherwise exactly one event is
      produced. */
  lemma OneEventPerEntry(dungeons: map<string, Dungeon>, q: EnterRoomQuery)
    ensures q.dungeonId !in dungeons <==> Enter(dungeons, q).Failure?
    ensures q.dungeonId !in dungeons ==> Enter(dungeons, q).error == KeyNotFound("Dungeon " + q.dungeonId + " not found")
    ensures Enter(dungeons, q).Success? ==> |Enter(dungeons, q).value.events| == 1
  {
  }

  /** An id held by no room: `RoomId` null, level 0 and the "no such room"
      line. */
  lemma UnknownRoom(dungeons: map<string, Dungeon>, q: EnterRoomQuery)
    requires q.dungeonId in dungeons
    requires forall i, k | 0 <= i < |dungeons[q.dungeonId].levels| && 0 <= k < |dungeons[q.dungeonId].levels[i].rooms| ::
      dungeons[q.dungeonId].levels[i].rooms[k].id != q.nextRoomId
    ensures Enter(dungeons, q) == Success(RoomProgress(None, 0, [NO_SUCH_ROOM]))
  {
    var levels := dungeons[q.dungeonId].levels;
    assert forall i | 0 <= i < |levels| :: !HasRoom(levels[i], q.nextRoomId);
    RoomFoundIffLevelFound(levels, q.nextRoomId);
  }

  /** A room that exists: `RoomId` is the requested id, the level is the
      number of the first level holding such a room, that room is on that
      level, and the event describes it. The event is "no such room"
      exactly when the room is missing. */
  lemma KnownRoom(dungeons: map<string, Dungeon>, q: EnterRoomQuery, i: nat)
    requires q.dungeonId in dungeons
    requires FirstLevelWithRoom(dungeons[q.dungeonId].levels, q.nextRoomId) == Some(i)
    ensures var levels := dungeons[q.dungeonId].levels;
      var all := AllRooms(levels);
      && FirstRoomWithId(all, q.nextRoomId).Some?
      && var room := all[FirstRoomWithId(all, q.nextRoomId).value];
      && room in levels[i].rooms
      && Enter(dungeons, q) == Success(RoomProgress(Some(q.nextRoomId), levels[i].number, [RoomEvent(Some(room))]))
      && RoomEvent(Some(room)) != NO_SUCH_ROOM
  {
    FirstRoomIsOnFirstLevel(dungeons[q.dungeonId].levels, q.nextRoomId);
  }

  /** A combat room without monsters reads as an empty room. */
  lemma MonsterlessCombatRoomIsEmpty(r: Room)
    requires r.kind.Combat? && r.kind.monsterNb <= 0
    ensures RoomEvent(Some(r)) == EMPTY_ROOM
  {
  }

  /** A combat room with monsters names their number. */
  lemma CombatRoomCountsMonsters(r: Room)
    requires r.kind.Combat? && r.kind.monsterNb > 0
    ensures RoomEvent(Some(r)) == "Vous affrontez " + IntToString(r.kind.monsterNb) + " monstre(s) !"
    ensures RoomEvent(Some(r)) != EMPTY_ROOM
  {
    assert RoomEvent(Some(r))[0] == 'V';
  }

  lemma FirstRoomWithIdIsUnique(rooms: seq<Room>, id: string, k: nat)
    requires k < |rooms| && rooms[k].id == id
    requires forall j | 0 <= j < k :: rooms[j].id != id
    ensures FirstRoomWithId(rooms, id) == Some(k)
  {
    var r := FirstRoomWithId(rooms, id);
    assert r.Some?;
    assert !(r.value < k);
    assert !(k < r.value);
  }

  /** The first match in a concatenation is the first match in the left
      part, or else the right part's first match shifted past the left. */
  lemma FirstRoomWithIdAppend(a: seq<Room>, b: seq<Room>, id: string)
    ensures FirstRoomWithId(a + b, id) ==
      match FirstRoomWithId(a, id)
      case Some(k) => Some(k)
      case None =>
        match FirstRoomWithId(b, id)
        case None => None
        case Some(j) => Some(|a| + j)
  {
    match FirstRoomWithId(a, id)
    case Some(k) =>
      assert (a + b)[k] == a[k];
      FirstRoomWithIdIsUnique(a + b, id, k);
    case None =>
      match FirstRoomWithId(b, id)
      case None =>
        assert forall j | 0 <= j < |a + b| :: (a + b)[j].id != id by {
          forall j | 0 <= j < |a + b| ensures (a + b)[j].id != id {
            if j >= |a| {
              assert (a + b)[j] == b[j - |a|];
            }
          }
        }
      case Some(j) =>
        assert (a + b)[|a| + j] == b[j];
        forall m | 0 <= m < |a| + j ensures (a + b)[m].id != id {
          if m >= |a| {
            assert (a + b)[m] == b[m - |a|];
          }
        }
        FirstRoomWithIdIsUnique(a + b, id, |a| + j);
  }

  /** The room found among all rooms lies on the first level holding the
      id. */
  lemma {:induction false} FirstRoomIsOnFirstLevel(levels: seq<Level>, id: string)
    requires FirstLevelWithRoom(levels, id).Some?
    ensures FirstRoomWithId(AllRooms(levels), id).Some?
    ensures AllRooms(levels)[FirstRoomWithId(AllRooms(levels), id).value] in levels[FirstLevelWithRoom(levels, id).value].rooms
    decreases |levels|
  {
    var head := levels[0].rooms;
    var rest := AllRooms(levels[1..]);
    assert AllRooms(levels) == head + rest;
    FirstRoomWithIdAppend(head, rest, id);
    if HasRoom(levels[0], id) {
      var k :| 0 <= k < |head| && head[k].id == id;
      assert FirstRoomWithId(head, id).Some?;
      var j := FirstRoomWithId(head, id).value;
      assert (head + rest)[j] == head[j];
    } else {
      assert FirstRoomWithId(head, id).None? by {
        forall k | 0 <= k < |head| ensures head[k].id != id {
          assert !HasRoom(levels[0], id);
        }
      }
      FirstRoomIsOnFirstLevel(levels[1..], id);
      var j := FirstRoomWithId(rest, id).value;
      assert (head + rest)[|head| + j] == rest[j];
    }
  }
}
