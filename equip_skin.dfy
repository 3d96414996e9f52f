/** `EquipSkinCommandHandler`: set a character's active skin. */
module EquipSkin {
  import opened Common
  import opened GameEntities

  datatype EquipSkinCommand = EquipSkinCommand(characterId: string, skinId: SkinId)

  /** Where the character store throws: on the lookup, on the write, or not
      at all. */
  datatype StoreFault = NoFault | ReadFails | UpdateFails

  /** The exceptions the handler rethrows: its own not-found exception, or
      the store's. */
  datatype EquipError = NotFound(message: string) | StoreError

  function NotFoundMessage(characterId: string): string {
    "Character " + characterId + " not found"
  }

  /** The handler on the store's contents. */
  function Equip(chars: map<string, Character>, cmd: EquipSkinCommand, fault: StoreFault)
    : (map<string, Character>, Result<bool, EquipError>)
  {
    if fault == ReadFails then (chars, Failure(StoreError))
    else if cmd.characterId !in chars then (chars, Failure(NotFound(NotFoundMessage(cmd.characterId))))
    else if fault == UpdateFails then (chars, Failure(StoreError))
    else
      var c := chars[cmd.characterId];
      (chars[c.id := c.(activeSkinId := cmd.skinId)], Success(true))
  }

  /** `Handle(EquipSkinCommand)`. Every exception, the not-found one
      included, is logged and rethrown. */
  method Handle(cmd: EquipSkinCommand, store: CharacterStore, fault: StoreFault)
    returns (r: Result<bool, EquipError>)
    requires store.Valid()
    modifies store
    ensures store.Valid()
    ensures (store.characters, r) == Equip(old(store.characters), cmd, fault)
  {
    if fault == ReadFails {
      return Failure(StoreError);
    }
    if cmd.characterId !in store.characters {
      return Failure(NotFound(NotFoundMessage(cmd.characterId)));
    }
    var character := store.characters[cmd.characterId];
    character := character.(activeSkinId := cmd.skinId);
    if fault == UpdateFails {
      return Failure(StoreError);
    }
    store.Update(character);
    r := Success(true);
  }

  /** A missing character is reported with its id in the message and the
      store is left as it was. */
  lemma MissingCharacterFails(chars: map<string, Character>, cmd: EquipSkinCommand, fault: StoreFault)
    requires cmd.characterId !in chars
    ensures Equip(chars, cmd, fault).0 == chars
    ensures fault != ReadFails ==>
      Equip(chars, cmd, fault).1 == Failure(NotFound("Character " + cmd.characterId + " not found"))
  {
  }

  /** On success the result is true, the character's ActiveSkinId is the
      requested skin, no other field of it changes, and no other character
      changes. */
  lemma EquipChangesOnlyTheSkin(chars: map<string, Character>, cmd: EquipSkinCommand)
    requires forall id | id in chars :: chars[id].id == id
    requires cmd.characterId in chars
    ensures var (after, r) := Equip(chars, cmd, NoFault);
      && r == Success(true)
      && after.Keys == chars.Keys
      && after[cmd.characterId].activeSkinId == cmd.skinId
      && after[cmd.characterId] == chars[cmd.characterId].(activeSkinId := cmd.skinId)
      && after[cmd.characterId].id == chars[cmd.characterId].id
      && after[cmd.characterId].name == chars[cmd.characterId].name
      && after[cmd.characterId].characterClass == chars[cmd.characterId].characterClass
      && after[cmd.characterId].userId == chars[cmd.characterId].userId
      && (forall id | id in chars && id != cmd.characterId :: after[id] == chars[id])
  {
  }

  /** Any store error reaches the caller and leaves the store unchanged. */
  lemma StoreErrorsAreRethrown(chars: map<string, Character>, cmd: EquipSkinCommand, fault: StoreFault)
    requires fault != NoFault
    ensures Equip(chars, cmd, fault).0 == chars
    ensures Equip(chars, cmd, fault).1.Failure?
  {
  }

  /** Equipping the same skin twice is equipping it once. */
  lemma EquipIsIdempotent(chars: map<string, Character>, cmd: EquipSkinCommand)
    requires forall id | id in chars :: chars[id].id == id
    ensures var once := Equip(chars, cmd, NoFault).0;
      Equip(once, cmd, NoFault).0 == once
  {
  }
}
