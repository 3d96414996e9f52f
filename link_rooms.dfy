/** `Dungeons/Commands/LinkRoomsCommandHandler`: link two rooms of a dungeon
    unless they are already linked in either direction. */
module LinkRoomsUndirected {
  import opened Common
  import opened GameEntities

  datatype LinkRoomsCommand = LinkRoomsCommand(dungeonId: string, fromRoomId: string, toRoomId: string)

  /** The handler reads `dungeon.Links` without checking that the dungeon
      was found: a missing dungeon is a NullReferenceException. */
  datatype LinkError = NullReference

  /** Some link joins the two rooms, in either direction. */
  predicate LinkedEitherWay(links: seq<RoomLink>, a: string, b: string) {
    exists i | 0 <= i < |links| ::
      (links[i].fromRoomId == a && links[i].toRoomId == b) ||
      (links[i].fromRoomId == b && links[i].toRoomId == a)
  }

  /** The links after the command: unchanged when the rooms are linked
      either way, otherwise one link from -> to appended at the end. */
  function WithLink(links: seq<RoomLink>, from: string, to: string): (r: seq<RoomLink>)
    ensures LinkedEitherWay(links, from, to) ==> r == links
    ensures !LinkedEitherWay(links, from, to) ==> r == links + [RoomLink(from, to)]
  {
    if LinkedEitherWay(links, from, to) then links else links + [RoomLink(from, to)]
  }

  /** `Handle(LinkRoomsCommand)`: load the dungeon, append the link if it is
      new and write the dungeon back; an existing link means no write. */
  method Handle(cmd: LinkRoomsCommand, store: DungeonStore) returns (r: Result<Dungeon, LinkError>)
    requires store.Valid()
    modifies store
    ensures store.Valid()
    ensures cmd.dungeonId !in old(store.dungeons) ==>
      r == Failure(NullReference) && store.dungeons == old(store.dungeons)
    ensures cmd.dungeonId in old(store.dungeons) ==>
      var d := old(store.dungeons)[cmd.dungeonId];
      && r == Success(d.(links := WithLink(d.links, cmd.fromRoomId, cmd.toRoomId)))
      && (LinkedEitherWay(d.links, cmd.fromRoomId, cmd.toRoomId) ==> store.dungeons == old(store.dungeons))
      && store.dungeons == old(store.dungeons)[cmd.dungeonId := r.value]
  {
    if cmd.dungeonId !in store.dungeons {
      return Failure(NullReference);
    }
    var dungeon := store.dungeons[cmd.dungeonId];
    var linkExists := LinkedEitherWay(dungeon.links, cmd.fromRoomId, cmd.toRoomId);
    if !linkExists {
      dungeon := dungeon.(links := dungeon.links + [RoomLink(cmd.fromRoomId, cmd.toRoomId)]);
      store.Update(dungeon);
    }
    r := Success(dungeon);
  }

  /** Existing links are kept, in order, as a prefix; at most one is added,
      and afterwards the rooms are linked both ways round. */
  lemma WithLinkKeepsAndLinks(links: seq<RoomLink>, from: string, to: string)
    ensures var r := WithLink(links, from, to);
      && r[..|links|] == links
      && |links| <= |r| <= |links| + 1
      && LinkedEitherWay(r, from, to)
      && LinkedEitherWay(r, to, from)
  {
    var r := WithLink(links, from, to);
    if !LinkedEitherWay(links, from, to) {
      assert r[|links|] == RoomLink(from, to);
    }
  }

  /** Applying the same command twice gives one link. */
  lemma WithLinkIsIdempotent(links: seq<RoomLink>, from: string, to: string)
    ensures WithLink(WithLink(links, from, to), from, to) == WithLink(links, from, to)
  {
    WithLinkKeepsAndLinks(links, from, to);
  }

  /** Linking a to b and then b to a adds a single link. */
  lemma ReverseLinkAddsNothing(links: seq<RoomLink>, a: string, b: string)
    ensures WithLink(WithLink(links, a, b), b, a) == WithLink(links, a, b)
  {
    WithLinkKeepsAndLinks(links, a, b);
  }
}
