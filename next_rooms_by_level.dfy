/** `NextRooms/Queries/GetNextRoomsQueryHandler`: the rooms of the level
    after the one holding the current room. */
module NextRoomsByLevel {
  import opened Common
  import opened GameEntities

  datatype GetNextRoomsQuery = GetNextRoomsQuery(dungeonId: string, currentRoomId: string)

  /** `KeyNotFoundException("Dungeon {id} not found")`. */
  datatype QueryError = KeyNotFound(message: string)

  /** `Levels.FirstOrDefault(l => l.Number == n)`, as an index. */
  function FirstLevelNumbered(levels: seq<Level>, n: Int32): (r: Option<nat>)
    ensures r.Some? ==> r.value < |levels| && levels[r.value].number == n
    ensures r.Some? ==> forall i | 0 <= i < r.value :: levels[i].number != n
    ensures r.None? <==> forall i | 0 <= i < |levels| :: levels[i].number != n
    decreases |levels|
  {
    if levels == [] then None
    else if levels[0].number == n then Some(0)
    else match FirstLevelNumbered(levels[1..], n)
      case None => None
      case Some(i) => Some(i + 1)
  }

  /** `Handle(GetNextRoomsQuery)` on the dungeon collection. The level
      number is a C# `int`, so `Number + 1` wraps at Int32.MaxValue. */
  function GetNextRooms(dungeons: map<string, Dungeon>, q: GetNextRoomsQuery): Result<seq<Room>, QueryError> {
    if q.dungeonId !in dungeons then Failure(KeyNotFound("Dungeon " + q.dungeonId + " not found"))
    else
      var levels := dungeons[q.dungeonId].levels;
      match FirstLevelWithRoom(levels, q.currentRoomId)
      case None => Success([])
      case Some(c) =>
        match FirstLevelNumbered(levels, AddInt32(levels[c].number, 1))
        case None => Success([])
        case Some(n) => Success(levels[n].rooms)
  }

  /** An unknown dungeon is the only error. */
  lemma UnknownDungeonIsTheOnlyError(dungeons: map<string, Dungeon>, q: GetNextRoomsQuery)
    ensures q.dungeonId !in dungeons <==> GetNextRooms(dungeons, q).Failure?
    ensures q.dungeonId !in dungeons ==>
      GetNextRooms(dungeons, q) == Failure(KeyNotFound("Dungeon " + q.dungeonId + " not found"))
  {
  }

  /** A room id held by no level gives no rooms. */
  lemma UnknownRoomGivesNothing(dungeons: map<string, Dungeon>, q: GetNextRoomsQuery)
    requires q.dungeonId in dungeons
    requires forall i | 0 <= i < |dungeons[q.dungeonId].levels| :: !HasRoom(dungeons[q.dungeonId].levels[i], q.currentRoomId)
    ensures GetNextRooms(dungeons, q) == Success([])
  {
  }

  /** When level `c` is the first holding the current room and no level is
      numbered one more than it, there are no next rooms. */
  lemma LastLevelGivesNothing(dungeons: map<string, Dungeon>, q: GetNextRoomsQuery, c: nat)
    requires q.dungeonId in dungeons
    requires var levels := dungeons[q.dungeonId].levels;
      c < |levels| && HasRoom(levels[c], q.currentRoomId) &&
      (forall i | 0 <= i < c :: !HasRoom(levels[i], q.currentRoomId)) &&
      (forall j | 0 <= j < |levels| :: levels[j].number != AddInt32(levels[c].number, 1))
    ensures GetNextRooms(dungeons, q) == Success([])
  {
    FirstLevelWithRoomIsUnique(dungeons[q.dungeonId].levels, q.currentRoomId, c);
  }

  /** When level `c` is the first holding the current room and level `n` is
      the first numbered one more, the answer is exactly level `n`'s room
      list. */
  lemma NextLevelRooms(dungeons: map<string, Dungeon>, q: GetNextRoomsQuery, c: nat, n: nat)
    requires q.dungeonId in dungeons
    requires var levels := dungeons[q.dungeonId].levels;
      c < |levels| && HasRoom(levels[c], q.currentRoomId) &&
      (forall i | 0 <= i < c :: !HasRoom(levels[i], q.currentRoomId)) &&
      n < |levels| && levels[n].number == AddInt32(levels[c].number, 1) &&
      (forall j | 0 <= j < n :: levels[j].number != levels[n].number)
    ensures GetNextRooms(dungeons, q) == Success(dungeons[q.dungeonId].levels[n].rooms)
  {
    var levels := dungeons[q.dungeonId].levels;
    FirstLevelWithRoomIsUnique(levels, q.currentRoomId, c);
    FirstLevelNumberedIsUnique(levels, levels[n].number, n);
  }

  lemma FirstLevelWithRoomIsUnique(levels: seq<Level>, id: string, c: nat)
    requires c < |levels| && HasRoom(levels[c], id)
    requires forall i | 0 <= i < c :: !HasRoom(levels[i], id)
    ensures FirstLevelWithRoom(levels, id) == Some(c)
  {
    var r := FirstLevelWithRoom(levels, id);
    assert r.Some?;
    assert !(r.value < c);
    assert !(c < r.value);
  }

  lemma FirstLevelNumberedIsUnique(levels: seq<Level>, m: Int32, n: nat)
    requires n < |levels| && levels[n].number == m
    requires forall j | 0 <= j < n :: levels[j].number != m
    ensures FirstLevelNumbered(levels, m) == Some(n)
  {
    var r := FirstLevelNumbered(levels, m);
    assert r.Some?;
    assert !(r.value < n);
    assert !(n < r.value);
  }

  /** Every room returned belongs to the dungeon. */
  lemma NextRoomsComeFromTheDungeon(dungeons: map<string, Dungeon>, q: GetNextRoomsQuery, room: Room)
    requires GetNextRooms(dungeons, q).Success? && room in GetNextRooms(dungeons, q).value
    ensures q.dungeonId in dungeons
    ensures exists i | 0 <= i < |dungeons[q.dungeonId].levels| :: room in dungeons[q.dungeonId].levels[i].rooms
  {
  }
}
