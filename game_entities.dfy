/** The game service's documents (characters and dungeons) and the two
    Mongo collections that hold them, keyed by their ObjectId strings. */
module GameEntities {
  import opened Common

  /** The type behind `Character.ActiveSkinId`. */
  type SkinId = string

  /** A character. `Class` is `(Classes)ClassCode`, an unchecked enum cast,
      so any Int32 code can be stored; the model keeps the code. */
  datatype Character = Character(
    id: string,
    name: string,
    characterClass: Int32,
    userId: string,
    activeSkinId: SkinId)

  /** The room subclasses the enter-room switch tells apart, with the one
      field each case reads; `Plain` is every other room. */
  datatype RoomKind =
    | Plain
    | Combat(monsterNb: Int32)
    | Treasure(piece: Int32)
    | Trap(damage: Int32)
    | Boss(nameBoss: string)

  /** `NextRoomId` is a nullable string: `None` on the last level. */
  datatype Room = Room(id: string, nextRoomId: Option<string>, kind: RoomKind)

  datatype Level = Level(number: Int32, rooms: seq<Room>)

  datatype RoomLink = RoomLink(fromRoomId: string, toRoomId: string)

  datatype Dungeon = Dungeon(id: string, seed: string, levels: seq<Level>, links: seq<RoomLink>)

  /** `Levels.SelectMany(l => l.Rooms)`: every room, level by level. */
  function AllRooms(levels: seq<Level>): (r: seq<Room>)
    decreases |levels|
  {
    if levels == [] then [] else levels[0].rooms + AllRooms(levels[1..])
  }

  /** A room is among all rooms iff some level holds it. */
  lemma {:induction false} AllRoomsMembership(levels: seq<Level>, room: Room)
    ensures room in AllRooms(levels) <==> exists i | 0 <= i < |levels| :: room in levels[i].rooms
    decreases |levels|
  {
    if levels != [] {
      AllRoomsMembership(levels[1..], room);
      if room in AllRooms(levels[1..]) {
        var i :| 0 <= i < |levels[1..]| && room in levels[1..][i].rooms;
        assert room in levels[i + 1].rooms;
      }
      if exists i | 0 <= i < |levels| :: room in levels[i].rooms {
        var i :| 0 <= i < |levels| && room in levels[i].rooms;
        if i > 0 {
          assert room in levels[1..][i - 1].rooms;
        }
      }
    }
  }

  /** `l.Rooms.Any(r => r.Id == id)`. */
  predicate HasRoom(l: Level, id: string) {
    exists k | 0 <= k < |l.rooms| :: l.rooms[k].id == id
  }

  /** `Levels.FirstOrDefault(l => l.Rooms.Any(r => r.Id == id))`, as an
      index. */
  function FirstLevelWithRoom(levels: seq<Level>, id: string): (r: Option<nat>)
    ensures r.Some? ==> r.value < |levels| && HasRoom(levels[r.value], id)
    ensures r.Some? ==> forall i | 0 <= i < r.value :: !HasRoom(levels[i], id)
    ensures r.None? <==> forall i | 0 <= i < |levels| :: !HasRoom(levels[i], id)
    decreases |levels|
  {
    if levels == [] then None
    else if HasRoom(levels[0], id) then Some(0)
    else match FirstLevelWithRoom(levels[1..], id)
      case None => None
      case Some(i) => Some(i + 1)
  }

  /** `rooms.FirstOrDefault(r => r.Id == id)`, as an index. */
  function FirstRoomWithId(rooms: seq<Room>, id: string): (r: Option<nat>)
    ensures r.Some? ==> r.value < |rooms| && rooms[r.value].id == id
    ensures r.Some? ==> forall k | 0 <= k < r.value :: rooms[k].id != id
    ensures r.None? <==> forall k | 0 <= k < |rooms| :: rooms[k].id != id
    decreases |rooms|
  {
    if rooms == [] then None
    else if rooms[0].id == id then Some(0)
    else match FirstRoomWithId(rooms[1..], id)
      case None => None
      case Some(k) => Some(k + 1)
  }

  /** Looking a room up among all rooms succeeds exactly when some level
      holds a room with that id. */
  lemma RoomFoundIffLevelFound(levels: seq<Level>, id: string)
    ensures FirstRoomWithId(AllRooms(levels), id).Some? <==> FirstLevelWithRoom(levels, id).Some?
  {
    var all := AllRooms(levels);
    if FirstRoomWithId(all, id).Some? {
      var room := all[FirstRoomWithId(all, id).value];
      AllRoomsMembership(levels, room);
      var i :| 0 <= i < |levels| && room in levels[i].rooms;
      var k :| 0 <= k < |levels[i].rooms| && levels[i].rooms[k] == room;
      assert HasRoom(levels[i], id);
    }
    if FirstLevelWithRoom(levels, id).Some? {
      var i := FirstLevelWithRoom(levels, id).value;
      var k :| 0 <= k < |levels[i].rooms| && levels[i].rooms[k].id == id;
      var room := levels[i].rooms[k];
      AllRoomsMembership(levels, room);
      var j :| 0 <= j < |all| && all[j] == room;
      assert all[j].id == id;
    }
  }

  /** The character collection: `_id` is the document key. */
  class CharacterStore {
    var characters: map<string, Character>

    ghost predicate Valid()
      reads this
    {
      forall id | id in characters :: characters[id].id == id
    }

    constructor (characters: map<string, Character>)
      ensures this.characters == characters
    {
      this.characters := characters;
    }

    /** `AddAsync(c)`: an insert under a fresh key. */
    method Add(c: Character)
      requires c.id !in characters
      modifies this
      ensures characters == old(characters)[c.id := c]
    {
      characters := characters[c.id := c];
    }

    /** `UpdateAsync(c)`: the document with the same Id is replaced. */
    method Update(c: Character)
      modifies this
      ensures characters == old(characters)[c.id := c]
    {
      characters := characters[c.id := c];
    }

    /** `RemoveAsync(id)`: `DeleteOne` by Id, a no-op when absent. */
    method Remove(id: string)
      modifies this
      ensures characters == old(characters) - {id}
    {
      characters := characters - {id};
    }
  }

  /** The dungeon collection. */
  class DungeonStore {
    var dungeons: map<string, Dungeon>

    ghost predicate Valid()
      reads this
    {
      forall id | id in dungeons :: dungeons[id].id == id
    }

    constructor (dungeons: map<string, Dungeon>)
      ensures this.dungeons == dungeons
    {
      this.dungeons := dungeons;
    }

    /** `UpdateAsync(d)`: the document with the same Id is replaced. */
    method Update(d: Dungeon)
      modifies this
      ensures dungeons == old(dungeons)[d.id := d]
    {
      dungeons := dungeons[d.id := d];
    }
  }
}
