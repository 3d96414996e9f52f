/** `CreateCharacterCommandHandler`: store a new character, then publish the
    event that opens the creation saga. */
module CreateCharacter {
  import opened Common
  import opened GameEntities
  import opened Messages

  datatype CreateCharacterCommand = CreateCharacterCommand(name: string, classCode: Int32, userId: string)

  /** The exception the handler lets escape. */
  datatype CreateError = StoreWriteFailed | PublishFailed

  /** `new Character { Name, Class = (Classes)ClassCode, UserId }` with the
      ObjectId the `Id` initializer generates. `ActiveSkinId` is not among
      the initializers; `Character.cs` in the domain project does not show
      the property, so its initial value is taken to be the empty string. */
  function NewCharacter(cmd: CreateCharacterCommand, newId: string): (c: Character)
    ensures c.id == newId && c.name == cmd.name && c.userId == cmd.userId
    ensures c.characterClass == cmd.classCode
  {
    Character(newId, cmd.name, cmd.classCode, cmd.userId, "")
  }

  /** `Handle(CreateCharacterCommand)`. `newId` is the freshly generated
      ObjectId; `storeFails` and `busFails` say whether `AddAsync` or
      `Publish` throws. The write comes first, so a failing write publishes
      nothing, and a failing publish leaves the stored character behind. On
      success exactly one character is added and exactly one event is
      published, carrying the new id and no UserId. */
  method Handle(cmd: CreateCharacterCommand, store: CharacterStore, bus: Bus,
                newId: string, storeFails: bool, busFails: bool)
    returns (r: Result<Character, CreateError>)
    requires store.Valid() && newId !in store.characters
    modifies store, bus
    ensures store.Valid()
    ensures storeFails ==>
      r == Failure(StoreWriteFailed) && store.characters == old(store.characters) && bus.published == old(bus.published)
    ensures !storeFails ==>
      store.characters == old(store.characters)[newId := NewCharacter(cmd, newId)] &&
      store.characters.Keys == old(store.characters).Keys + {newId}
    ensures !storeFails && busFails ==>
      r == Failure(PublishFailed) && bus.published == old(bus.published)
    ensures !storeFails && !busFails ==>
      r == Success(NewCharacter(cmd, newId)) &&
      bus.published == old(bus.published) + [CreateCharacterEvent(newId, None)]
  {
    var character := NewCharacter(cmd, newId);
    if storeFails {
      return Failure(StoreWriteFailed);
    }
    store.Add(character);
    if busFails {
      return Failure(PublishFailed);
    }
    bus.Publish(CreateCharacterEvent(character.id, None));
    r := Success(character);
  }
}
