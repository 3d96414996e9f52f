/** The bus messages of the character-creation saga and the outbox of
    published events. */
module Messages {
  import opened Common

  /** Published when a character is stored; opens the saga. `UserId` is a
      nullable string: `None` when the publisher leaves it unset. */
  datatype CreateCharacterEvent = CreateCharacterEvent(characterId: string, userId: Option<string>)

  datatype CharacterCreationConfirmed = CharacterCreationConfirmed(characterId: string, message: string)

  datatype CharacterCreationFailed = CharacterCreationFailed(characterId: string, reason: string)

  /** The three message types the saga handles. */
  datatype SagaMessage =
    | Created(created: CreateCharacterEvent)
    | Confirmed(confirmed: CharacterCreationConfirmed)
    | Failed(failed: CharacterCreationFailed)

  /** The bus as the publisher sees it: the events published so far. */
  class Bus {
    var published: seq<CreateCharacterEvent>

    constructor ()
      ensures published == []
    {
      published := [];
    }

    /** `bus.Publish(e)`. */
    method Publish(e: CreateCharacterEvent)
      modifies this
      ensures published == old(published) + [e]
    {
      published := published + [e];
    }
  }
}
