/** `LinkRooms/Commands/LinkRoomsCommandHandler`: add a directed link
    between two rooms unless that exact link exists. */
module LinkRoomsDirected {
  import opened Common
  import opened GameEntities

  datatype LinkRoomsCommand = LinkRoomsCommand(dungeonId: string, fromRoomId: string, toRoomId: string)

  /** `KeyNotFoundException("Dungeon {id} not found")`. */
  datatype LinkError = KeyNotFound(message: string)

  /** The link from -> to exists; a link to -> from does not count. */
  predicate LinkedFromTo(links: seq<RoomLink>, from: string, to: string) {
    exists i | 0 <= i < |links| :: links[i].fromRoomId == from && links[i].toRoomId == to
  }

  function WithDirectedLink(links: seq<RoomLink>, from: string, to: string): (r: seq<RoomLink>)
    ensures LinkedFromTo(links, from, to) ==> r == links
    ensures !LinkedFromTo(links, from, to) ==> r == links + [RoomLink(from, to)]
  {
    if LinkedFromTo(links, from, to) then links else links + [RoomLink(from, to)]
  }

  /** `Handle(LinkRoomsCommand)`. */
  method Handle(cmd: LinkRoomsCommand, store: DungeonStore) returns (r: Result<Dungeon, LinkError>)
    requires store.Valid()
    modifies store
    ensures store.Valid()
    ensures cmd.dungeonId !in old(store.dungeons) ==>
      r == Failure(KeyNotFound("Dungeon " + cmd.dungeonId + " not found")) &&
      store.dungeons == old(store.dungeons)
    ensures cmd.dungeonId in old(store.dungeons) ==>
      var d := old(store.dungeons)[cmd.dungeonId];
      && r == Success(d.(links := WithDirectedLink(d.links, cmd.fromRoomId, cmd.toRoomId)))
      && (LinkedFromTo(d.links, cmd.fromRoomId, cmd.toRoomId) ==> store.dungeons == old(store.dungeons))
      && store.dungeons == old(store.dungeons)[cmd.dungeonId := r.value]
  {
    if cmd.dungeonId !in store.dungeons {
      return Failure(KeyNotFound("Dungeon " + cmd.dungeonId + " not found"));
    }
    var dungeon := store.dungeons[cmd.dungeonId];
    var linkExists := LinkedFromTo(dungeon.links, cmd.fromRoomId, cmd.toRoomId);
    if !linkExists {
      dungeon := dungeon.(links := dungeon.links + [RoomLink(cmd.fromRoomId, cmd.toRoomId)]);
      store.Update(dungeon);
    }
    r := Success(dungeon);
  }

  /** Prior links are kept in order, at most one is appended, and the
      directed link exists afterwards. */
  lemma WithDirectedLinkKeepsAndLinks(links: seq<RoomLink>, from: string, to: string)
    ensures var r := WithDirectedLink(links, from, to);
      && r[..|links|] == links
      && |links| <= |r| <= |links| + 1
      && LinkedFromTo(r, from, to)
  {
    var r := WithDirectedLink(links, from, to);
    if !LinkedFromTo(links, from, to) {
      assert r[|links|] == RoomLink(from, to);
    }
  }

  lemma WithDirectedLinkIsIdempotent(links: seq<RoomLink>, from: string, to: string)
    ensures WithDirectedLink(WithDirectedLink(links, from, to), from, to) == WithDirectedLink(links, from, to)
  {
    WithDirectedLinkKeepsAndLinks(links, from, to);
  }

  /** Unlike the undirected handler, the reverse link is no duplicate:
      linking a to b and then b to a, for distinct rooms, adds two links. */
  lemma ReverseLinkIsAdded(links: seq<RoomLink>, a: string, b: string)
    requires a != b
    requires !LinkedFromTo(links, a, b) && !LinkedFromTo(links, b, a)
    ensures WithDirectedLink(WithDirectedLink(links, a, b), b, a) == links + [RoomLink(a, b), RoomLink(b, a)]
  {
    var once := links + [RoomLink(a, b)];
    forall i | 0 <= i < |once| ensures !(once[i].fromRoomId == b && once[i].toRoomId == a) {
      if i < |links| {
        assert once[i] == links[i];
      }
    }
  }
}
