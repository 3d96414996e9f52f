# DungeonCrawler core, modelled in Dafny

DungeonCrawler has two back-end services. This project models and proves the
core logic of both.

The **quests service** keeps quest definitions and each player's progress
on them:

- `PlayerQuest.UpdateProgress` is a small state machine over the status
  (NotStarted, InProgress, Completed, Claimed). Once a record is Completed
  or Claimed it is clamped: nothing changes any more.
- `DungeonCompletedHandler` is an idempotent bus consumer. It keeps a
  ledger of processed event ids and skips an event it has already seen.
  Otherwise, for every active quest of type `DUNGEON_COMPLETION`, it finds
  or creates the player's record and advances it by one. Only then does it
  write the event id to the ledger.
- The quest handlers are:
  - listing with filters;
  - lookup by id;
  - creation with a code that must be unique ignoring case;
  - update;
  - soft delete.
- The player-quest handlers join a player's records with their definitions
  and reset one record.
- The creation validator checks that the code is present and not already
  stored.
- `MongoDbConfiguration` registers the BSON settings once. Its
  `ConditionalCamelCaseConvention` names the stored elements.

The **game service** owns characters and dungeons:

- `CreateCharacterCommandHandler` stores a new character, then publishes a
  `CreateCharacterEvent`.
- That event opens `CreateCharacterSaga`. The saga waits for the remote
  decision:
  - a confirmation marks the saga instance completed and closes it;
  - a failure marks it failed, deletes the local character (compensation)
    and closes it. A store error during the delete is logged and
    swallowed.
- The remaining handlers:
  - equipping a skin;
  - two variants of linking rooms: an undirected one that sees a link in
    either direction, and a directed one;
  - two variants of the next-rooms query: by level number, and by a
    one-character id prefix;
  - entering a room, which turns the room kind into one event line.
- The validators cover character creation and room linking, including
  the room-id pattern and the rule that room numbers follow each other.

## How the model is built

- Pure code is modelled as functions, with lemmas about them.
- Code that changes state is modelled as classes over value documents:
  - `QuestStore`, `CharacterStore`, `DungeonStore`, the bus outbox `Bus`;
  - the saga's storage `SagaStorage`;
  - the `PlayerQuest` entity;
  - the configuration's static state and a BSON member map.
- Every method that changes state is tied to a specification function by
  its `ensures`: the new state and the result equal the function applied to
  the old state. The lemmas then state what the source promises about that
  function.
- Several inputs become parameters:
  - `DateTime.UtcNow` becomes `now`;
  - freshly generated Guids and ObjectIds become id parameters;
  - whether a store or the bus throws becomes a fault parameter, so that
    rethrown and swallowed errors can both be stated.
- The source's `int` is `Common.Int32`, and `+` on it wraps as unchecked C#
  does (`Common.AddInt32`).

A few behaviours of the code are modelled as written, and lemmas exhibit
them:

- **Dungeons next-rooms query.** It compares only the first character of
  `NextRoomId`, so "12a" also admits "1a" and "10b"
  (`NextRoomsByPrefix.OneCharacterPrefixOverreaches`). An empty
  `NextRoomId` throws from `Substring(0, 1)`.
- **Code uniqueness at quest creation.** The validator's check is
  case-sensitive, but the handler's is not. With "ABC" stored, "abc" passes
  validation and is then refused by the handler
  (`CreateQuestValidator.CaseVariantPassesValidationButNotCreation`).
- **FromRoomId message.** The link-rooms validator reports an empty
  FromRoomId with the message "ToRoomId is required.".
- **Room-id pattern.** .NET's `$` also matches before a final newline, so
  "1a\n" matches the pattern.
- **Undirected link handler.** It has no null check. A missing dungeon
  dereferences null, which is modelled as a `NullReference` error result
  rather than as a precondition.

## Model

| member | source | states |
|---|---|---|
| QuestDomain.NewRecord | DungeonCrawler_Quests_Service.Domain/Entities/PlayerQuest.cs:12-16 | a new record keeps the given ids and starts NotStarted, with count 0, no completion time and UpdatedAt = now |
| QuestDomain.PlayerQuest.constructor | DungeonCrawler_Quests_Service.Domain/Entities/PlayerQuest.cs:12-16 | a fresh PlayerQuest entity is in NotStarted |
| QuestDomain.PlayerQuest.Load | DungeonCrawler_Quests_Service.Domain/Entities/PlayerQuest.cs:7-16 | an entity loaded from a stored record has exactly that record's fields |
| QuestDomain.PlayerQuest.UpdateProgress | DungeonCrawler_Quests_Service.Domain/Entities/PlayerQuest.cs:19-35 | the in-place update turns the record into `Progressed(old record)`; a terminal record's fields all stay the same |
| QuestDomain.ProgressedTerminalIsNoop | DungeonCrawler_Quests_Service.Domain/Entities/PlayerQuest.cs:21 | a Completed or Claimed record is left exactly as it was |
| QuestDomain.ProgressedAdvances | DungeonCrawler_Quests_Service.Domain/Entities/PlayerQuest.cs:23-34 | on a non-terminal record the count grows by exactly `amount`; the status is Completed with CompletedAt = now iff the new count reaches the target, and otherwise InProgress with CompletedAt untouched; the ids never change |
| QuestDomain.TwoOfThreePlusOneCompletes | DungeonCrawler_Quests_Service.Domain/Entities/PlayerQuest.cs:26-30 | 2 of 3 plus 1 gives Completed at 3, with a completion time |
| QuestDomain.TerminalIsClamped | DungeonCrawler_Quests_Service.Domain/Entities/PlayerQuest.cs:21 | no sequence of updates changes a terminal record |
| QuestDomain.CompletionIsFinal | DungeonCrawler_Quests_Service.Domain/Entities/PlayerQuest.cs:21-30 | after an update that completes a record, every later sequence of updates keeps it exactly as completed |
| QuestDomain.ProgressNeverDecreases | DungeonCrawler_Quests_Service.Domain/Entities/PlayerQuest.cs:23 | a non-negative amount that does not overflow never lowers the count |
| QuestDomain.ProgressByNeverDecreases | DungeonCrawler_Quests_Service.Domain/Entities/PlayerQuest.cs:23 | over a sequence of non-negative, non-overflowing steps, the count never ends lower than it started |
| QuestDomain.ProgressWrapsAtInt32Max | DungeonCrawler_Quests_Service.Domain/Entities/PlayerQuest.cs:13-23 | the count is a C# int: at Int32.MaxValue, one more unit wraps it to Int32.MinValue, and the record stays InProgress |
| QuestStore.FindPlayerQuest | DungeonCrawler_Quests_Service.Application/Features/Events/DungeonCompletedHandler.cs:45-51 | the first record of that player and quest, or None iff there is no such record |
| QuestStore.FindQuest | DungeonCrawler_Quests_Service.Infrastructure/Repositories/GenericRepository.cs:16-20 | the first definition with that id, or None iff no definition has it |
| QuestStore.QuestStore.constructor | DungeonCrawler_Quests_Service.Infrastructure/Repositories/GenericRepository.cs:11-14 | the store holds the given collections |
| QuestStore.QuestStore.AddQuest | DungeonCrawler_Quests_Service.Infrastructure/Repositories/GenericRepository.cs:32-35 | the definition is appended; ids remain distinct; the other collections are unchanged |
| QuestStore.QuestStore.UpdateQuestAt | DungeonCrawler_Quests_Service.Infrastructure/Repositories/GenericRepository.cs:37-44 | the document with that id is replaced in place; ids remain distinct; the other collections are unchanged |
| QuestStore.QuestStore.AddPlayerQuest | DungeonCrawler_Quests_Service.Infrastructure/Repositories/GenericRepository.cs:32-35 | the record is appended; nothing else changes |
| QuestStore.QuestStore.UpdatePlayerQuestAt | DungeonCrawler_Quests_Service.Infrastructure/Repositories/GenericRepository.cs:37-44 | the record at that position is replaced; nothing else changes |
| QuestStore.QuestStore.AddProcessedEvent | DungeonCrawler_Quests_Service.Infrastructure/Repositories/GenericRepository.cs:32-35 | the event id is appended to the ledger; nothing else changes |
| DungeonCompleted.DungeonQuests | DungeonCrawler_Quests_Service.Application/Features/Events/DungeonCompletedHandler.cs:37-39 | a quest is selected iff it is stored, active and of type DUNGEON_COMPLETION |
| DungeonCompleted.StartingRecord | DungeonCrawler_Quests_Service.Application/Features/Events/DungeonCompletedHandler.cs:51-65 | the record the update starts from belongs to this player and this quest |
| DungeonCompleted.Handle | DungeonCrawler_Quests_Service.Application/Features/Events/DungeonCompletedHandler.cs:21-76 | the loop over the active quests, followed by the ledger write, leaves the store in the state `HandleSpec` gives, and keeps quest ids distinct |
| DungeonCompleted.DuplicateIsNoop | DungeonCrawler_Quests_Service.Application/Features/Events/DungeonCompletedHandler.cs:26-33 | an event already in the ledger changes no record and no ledger entry |
| DungeonCompleted.NoMatchingQuestRecordsNothing | DungeonCrawler_Quests_Service.Application/Features/Events/DungeonCompletedHandler.cs:41 | with no active dungeon-completion quest, the handler returns without recording the event |
| DungeonCompleted.NoDungeonQuests | DungeonCrawler_Quests_Service.Application/Features/Events/DungeonCompletedHandler.cs:37-41 | if no quest qualifies, the filtered list is empty |
| DungeonCompleted.MatchRecordsEvent | DungeonCrawler_Quests_Service.Application/Features/Events/DungeonCompletedHandler.cs:75 | when some quest matches, an unseen event is appended to the ledger exactly once, and the quest table is unchanged |
| DungeonCompleted.HandleTwiceIsHandleOnce | DungeonCrawler_Quests_Service.Application/Features/Events/DungeonCompletedHandler.cs:26-75 | handling the same event twice in a row gives the state of handling it once |
| DungeonCompleted.TrackAllOutcome | DungeonCrawler_Quests_Service.Application/Features/Events/DungeonCompletedHandler.cs:49-69 | for each processed quest, the player's record afterwards is UpdateProgress(1, TargetCount) applied to the existing record (at the same position) or to a new NotStarted record with count 0 |
| DungeonCompleted.TrackAllCreatesAtMostOne | DungeonCrawler_Quests_Service.Application/Features/Events/DungeonCompletedHandler.cs:51-65 | the added records have pairwise distinct quest ids, and each is for a quest the player had no record of |
| DungeonCompleted.TrackAllFrame | DungeonCrawler_Quests_Service.Application/Features/Events/DungeonCompletedHandler.cs:49-72 | the loop only appends and updates: every record keeps its ids and position, and records of other players or quests are unchanged |
| DungeonCompleted.TrackAllLeavesOtherQuest | DungeonCrawler_Quests_Service.Application/Features/Events/DungeonCompletedHandler.cs:45-51 | a quest the loop does not process keeps its first-match record, unchanged |
| DungeonCompleted.HandleUpdatesExactlyMatchingRecords | DungeonCrawler_Quests_Service.Application/Features/Events/DungeonCompletedHandler.cs:45-72 | for an unseen event, each matching quest's record is advanced by one; every record of another player or quest is unchanged; records are only added for this player and a matching quest |
| DungeonCompleted.CompletedRecordIsClamped | DungeonCrawler_Quests_Service.Application/Features/Events/DungeonCompletedHandler.cs:68 | a record that is already terminal comes through the consumer unchanged |
| DungeonCompleted.TwoOfThreeCompletesOnEvent | DungeonCrawler_Quests_Service.Application/Features/Events/DungeonCompletedHandler.cs:49-69 | a player at 2 of 3 is Completed at 3 after one event |
| QuestsHandlers.GetAllMeaning | DungeonCrawler_Quests_Service.Application/Features/Quests/QuestsHandlers.cs:18-30 | the result is a subsequence of the store; a quest is in it iff it is stored and passes the IsActive filter and the case-insensitive keyword filter on Title or Code |
| QuestsHandlers.GetAllUnfiltered | DungeonCrawler_Quests_Service.Application/Features/Quests/QuestsHandlers.cs:24-25 | with no IsActive filter and a null or empty keyword, every quest is returned, in order |
| QuestsHandlers.GetById | DungeonCrawler_Quests_Service.Application/Features/Quests/QuestsHandlers.cs:33-34 | a stored definition with that id, or null iff no definition has it |
| QuestsHandlers.GetByIdOfDistinct | DungeonCrawler_Quests_Service.Application/Features/Quests/QuestsHandlers.cs:33-34 | with distinct ids, the lookup returns exactly the stored definition |
| QuestsHandlers.NewQuest | DungeonCrawler_Quests_Service.Application/Features/Quests/QuestsHandlers.cs:48-57 | a created quest carries the request's fields, the new id, IsActive = true and the default type |
| QuestsHandlers.Create | DungeonCrawler_Quests_Service.Application/Features/Quests/QuestsHandlers.cs:37-61 | the result and the new quest table are those of `Created`; quest ids remain distinct |
| QuestsHandlers.CreateOutcome | DungeonCrawler_Quests_Service.Application/Features/Quests/QuestsHandlers.cs:42-59 | creation fails iff some code equals the new one ignoring case, and then the result is the duplicate-code message and nothing is added; otherwise the result is `Success(newId)` and exactly the new quest is appended |
| QuestsHandlers.CreateKeepsCodesDistinct | DungeonCrawler_Quests_Service.Application/Features/Quests/QuestsHandlers.cs:42-59 | creation keeps codes pairwise distinct ignoring case, and every case variant of the code is then taken |
| QuestsHandlers.Update | DungeonCrawler_Quests_Service.Application/Features/Quests/QuestsHandlers.cs:64-78 | the result and the new quest table are those of `Updated`; ids remain distinct |
| QuestsHandlers.UpdateOutcome | DungeonCrawler_Quests_Service.Application/Features/Quests/QuestsHandlers.cs:67-77 | a missing id gives false and no change; otherwise Title, Description, TargetCount, Reward and IsActive are replaced, while Id, Code, Type and the dates are kept, and no other quest changes |
| QuestsHandlers.Delete | DungeonCrawler_Quests_Service.Application/Features/Quests/QuestsHandlers.cs:81-90 | the result and the new quest table are those of `Deleted` |
| QuestsHandlers.DeleteIsSoft | DungeonCrawler_Quests_Service.Application/Features/Quests/QuestsHandlers.cs:84-89 | a missing id gives false; otherwise the quest stays stored with IsActive = false and its other fields kept, and no other quest changes |
| QuestsHandlers.DeleteIsIdempotent | DungeonCrawler_Quests_Service.Application/Features/Quests/QuestsHandlers.cs:87 | deleting twice is deleting once |
| QuestsHandlers.DeletedQuestIsNotListedAsActive | DungeonCrawler_Quests_Service.Application/Features/Quests/QuestsHandlers.cs:24-87 | after a delete, the quest is no longer among the active quests listed |
| QuestsHandlers.FindQuestOfDistinct | DungeonCrawler_Quests_Service.Infrastructure/Repositories/GenericRepository.cs:16-20 | with distinct ids, the lookup finds a definition at its own position |
| CreateQuestValidator.Validate | DungeonCrawler_Quests_Service.Application/Behavior/CreateQuestCommandValidator.cs:13-21 | every error is on Code, and there are at most two |
| CreateQuestValidator.ValidateMeaning | DungeonCrawler_Quests_Service.Application/Behavior/CreateQuestCommandValidator.cs:13-21 | a command passes iff its code is non-blank and not stored verbatim; the required message appears iff the code is blank; the in-use message appears iff the code is stored |
| CreateQuestValidator.EmptyCodeIsRequired | DungeonCrawler_Quests_Service.Application/Behavior/CreateQuestCommandValidator.cs:14 | an empty code fails with "Le code est obligatoire." |
| CreateQuestValidator.CaseVariantPassesValidationButNotCreation | DungeonCrawler_Quests_Service.Application/Behavior/CreateQuestCommandValidator.cs:18 | with "ABC" stored, "abc" passes the validator and is refused by the handler |
| CreateQuestValidator.StoredCodeIsTaken | DungeonCrawler_Quests_Service.Application/Behavior/CreateQuestCommandValidator.cs:18 | every code the validator finds stored is also refused by the handler |
| PlayerQuestsHandlers.RecordsOfMeaning | DungeonCrawler_Quests_Service.Application/Features/PlayerQuests/PlayerQuestsHandlers.cs:22-23 | the selected records are a subsequence of the store, and a record is among them iff it is stored and belongs to the player |
| PlayerQuestsHandlers.GetPlayerQuests | DungeonCrawler_Quests_Service.Application/Features/PlayerQuests/PlayerQuestsHandlers.cs:15-35 | one entry per record of the player, in order, each joined with the definition `GetById` finds for its quest id |
| PlayerQuestsHandlers.JoinedQuestMatches | DungeonCrawler_Quests_Service.Application/Features/PlayerQuests/PlayerQuestsHandlers.cs:29-32 | a joined quest is a stored definition with the record's quest id; the join is null iff there is no such definition |
| PlayerQuestsHandlers.Reset | DungeonCrawler_Quests_Service.Application/Features/PlayerQuests/PlayerQuestsHandlers.cs:37-51 | the result and the new records are those of `ResetEffect`; quests and the ledger are unchanged, and the store invariant is kept |
| PlayerQuestsHandlers.ResetOutcome | DungeonCrawler_Quests_Service.Application/Features/PlayerQuests/PlayerQuestsHandlers.cs:41-50 | the result is true iff the player has a record for the quest (otherwise nothing changes); only the first such record changes: count 0, NotStarted, UpdatedAt = now, with ids and CompletedAt kept, even when it was Completed |
| PlayerQuestsHandlers.ResetIsIdempotent | DungeonCrawler_Quests_Service.Application/Features/PlayerQuests/PlayerQuestsHandlers.cs:41-49 | resetting twice at the same time is resetting once |
| PlayerQuestsHandlers.ResetRecordProgressesAgain | DungeonCrawler_Quests_Service.Application/Features/PlayerQuests/PlayerQuestsHandlers.cs:45-47 | a Completed record ignores progress, but after a reset it counts again and can complete anew |
| MongoConfiguration.MongoDbConfiguration.constructor | DungeonCrawler_Quests_Service.Infrastructure/MongoDbConfiguration.cs:15 | the process starts uninitialized, with nothing registered |
| MongoConfiguration.MongoDbConfiguration.Configure | DungeonCrawler_Quests_Service.Infrastructure/MongoDbConfiguration.cs:21-42 | the new static state is `Configured(old state)`: nothing changes once initialized; otherwise the serializer and then the pack are registered, and the flag is set |
| MongoConfiguration.ConfigureIsIdempotent | DungeonCrawler_Quests_Service.Infrastructure/MongoDbConfiguration.cs:25-40 | after one call the flag is set, and a second call changes nothing |
| MongoConfiguration.ConfiguredManyTimes | DungeonCrawler_Quests_Service.Infrastructure/MongoDbConfiguration.cs:25-40 | any number n >= 1 of calls from the start registers the two registrations exactly once |
| MongoConfiguration.CamelCase | DungeonCrawler_Quests_Service.Infrastructure/MongoDbConfiguration.cs:66 | the first character is lower-cased (over ASCII), and the length and the rest are unchanged |
| MongoConfiguration.MemberMap.constructor | DungeonCrawler_Quests_Service.Infrastructure/MongoDbConfiguration.cs:51 | a fresh member map is named after its member |
| MongoConfiguration.Apply | DungeonCrawler_Quests_Service.Infrastructure/MongoDbConfiguration.cs:51-68 | saga members other than Id keep their element name; a saga Id becomes "_id"; any other member becomes its camelCased name |
| MongoConfiguration.ApplyToFresh | DungeonCrawler_Quests_Service.Infrastructure/MongoDbConfiguration.cs:51-68 | on a fresh member map, the convention yields `ElementName` |
| MongoConfiguration.CamelCaseIsIdempotent | DungeonCrawler_Quests_Service.Infrastructure/MongoDbConfiguration.cs:66 | camel-casing twice is camel-casing once |
| MongoConfiguration.CamelCaseOfLowerIsUnchanged | DungeonCrawler_Quests_Service.Infrastructure/MongoDbConfiguration.cs:66 | a name not starting with an ASCII upper-case letter is unchanged |
| MongoConfiguration.ElementNameExamples | DungeonCrawler_Quests_Service.Infrastructure/MongoDbConfiguration.cs:54-67 | TargetCount is stored as targetCount and Id as id; a saga's Id is _id, and its Revision keeps its name |
| GameEntities.AllRoomsMembership | DungeonCrawler_Game_Service.Application/Features/EnterRoom/Queries/EnterRoomQueryHandler.cs:20 | a room is among all rooms iff some level holds it |
| GameEntities.FirstLevelWithRoom | DungeonCrawler_Game_Service.Application/Features/NextRooms/Queries/GetNextRoomsQueryHandler.cs:20 | the first level holding a room with that id, or None iff no level does |
| GameEntities.FirstRoomWithId | DungeonCrawler_Game_Service.Application/Features/EnterRoom/Queries/EnterRoomQueryHandler.cs:20 | the first room with that id, or None iff there is none |
| GameEntities.RoomFoundIffLevelFound | DungeonCrawler_Game_Service.Application/Features/EnterRoom/Queries/EnterRoomQueryHandler.cs:20-21 | the room lookup succeeds iff the level lookup does |
| GameEntities.CharacterStore.constructor | DungeonCrawler_Game_Service.Infrastructure/Repositories/GenericRepository.cs:11-14 | the store holds the given characters |
| GameEntities.CharacterStore.Add | DungeonCrawler_Game_Service.Infrastructure/Repositories/GenericRepository.cs:32-35 | exactly the new character is inserted under its id |
| GameEntities.CharacterStore.Update | DungeonCrawler_Game_Service.Infrastructure/Repositories/GenericRepository.cs:37-44 | the document with that id is replaced |
| GameEntities.CharacterStore.Remove | DungeonCrawler_Game_Service.Infrastructure/Repositories/GenericRepository.cs:46-50 | only the document with that id is removed |
| GameEntities.DungeonStore.constructor | DungeonCrawler_Game_Service.Infrastructure/Repositories/GenericRepository.cs:11-14 | the store holds the given dungeons |
| GameEntities.DungeonStore.Update | DungeonCrawler_Game_Service.Infrastructure/Repositories/GenericRepository.cs:37-44 | the dungeon with that id is replaced |
| Messages.Bus.constructor | DungeonCrawler_Game_Service.Application/Features/Characters/Commands/CreateCharacterCommandHandler.cs:33-36 | nothing has been published yet |
| Messages.Bus.Publish | DungeonCrawler_Game_Service.Application/Features/Characters/Commands/CreateCharacterCommandHandler.cs:33-36 | exactly one event is appended to the outbox |
| CreateCharacter.NewCharacter | DungeonCrawler_Game_Service.Application/Features/Characters/Commands/CreateCharacterCommandHandler.cs:27 | the new character has the request's Name and UserId, Class = ClassCode and the fresh id |
| CreateCharacter.Handle | DungeonCrawler_Game_Service.Application/Features/Characters/Commands/CreateCharacterCommandHandler.cs:24-39 | the write comes first: a failing write publishes nothing; a failing publish leaves the character stored; on success exactly one character is added and exactly one event is published, carrying the new id and no UserId; the store's every-key-is-its-document's-id invariant is kept |
| CreateCharacterValidator.ValidIff | DungeonCrawler_Game_Service.Application/Features/Characters/Validators/CreateCharacterCommandValidator.cs:14-24 | valid iff Name is non-blank with at most 50 characters, ClassCode is in [1, 3] and UserId is non-blank; every error names Name, ClassCode or UserId |
| CreateCharacterValidator.NameLengthBoundary | DungeonCrawler_Game_Service.Application/Features/Characters/Validators/CreateCharacterCommandValidator.cs:16 | a name of 50 characters passes; one of 51 fails with exactly the length message |
| CreateCharacterValidator.EmptyNameIsOnlyRequired | DungeonCrawler_Game_Service.Application/Features/Characters/Validators/CreateCharacterCommandValidator.cs:14-16 | an empty name gives only "Name is required." |
| CreateCharacterValidator.ClassCodeExamples | DungeonCrawler_Game_Service.Application/Features/Characters/Validators/CreateCharacterCommandValidator.cs:19-20 | class codes 0, -1 and 4 are refused; 1, 2 and 3 are accepted |
| CreateCharacterValidator.SingleViolation | DungeonCrawler_Game_Service.Application/Features/Characters/Validators/CreateCharacterCommandValidator.cs:14-24 | a single violated rule yields exactly its own error |
| CreateCharacterValidator.AllFieldsInvalid | DungeonCrawler_Game_Service.Application/Features/Characters/Validators/CreateCharacterCommandValidator.cs:14-24 | with every field invalid, the errors name Name, ClassCode and UserId |
| CreateCharacterValidator.BlankLongNameGetsBothErrors | DungeonCrawler_Game_Service.Application/Features/Characters/Validators/CreateCharacterCommandValidator.cs:14-16 | a whitespace name longer than 50 characters breaks both Name rules, since both are evaluated |
| CharacterSaga.NewSagaData | DungeonCrawler_Game_Service.Application/Features/Characters/Sagas/CreateCharacterSagaData.cs:15-23 | new saga data has empty strings, both flags down, no failure reason and CreatedAt = now |
| CharacterSaga.CompensationEffect | DungeonCrawler_Game_Service.Application/Features/Characters/Sagas/CreateCharacterSaga.cs:91-119 | only the record keyed by the id can disappear; it does so iff the store does not throw; an absent character gives no error; a store error is swallowed and leaves the character in place |
| CharacterSaga.CreateCharacterSaga.constructor | DungeonCrawler_Game_Service.Application/Features/Characters/Sagas/CreateCharacterSaga.cs:22-28 | the saga object works on the given data and store, and is not marked complete |
| CharacterSaga.CreateCharacterSaga.MarkAsComplete | DungeonCrawler_Game_Service.Application/Features/Characters/Sagas/CreateCharacterSaga.cs:66 | the instance is marked for deletion, and its data is kept |
| CharacterSaga.CreateCharacterSaga.HandleCreated | DungeonCrawler_Game_Service.Application/Features/Characters/Sagas/CreateCharacterSaga.cs:40-53 | CharacterId, UserId and CreatedAt are recorded; the instance stays open |
| CharacterSaga.CreateCharacterSaga.HandleConfirmed | DungeonCrawler_Game_Service.Application/Features/Characters/Sagas/CreateCharacterSaga.cs:58-68 | IsCompleted is set, then the instance is marked complete; the store is untouched |
| CharacterSaga.CreateCharacterSaga.HandleFailed | DungeonCrawler_Game_Service.Application/Features/Characters/Sagas/CreateCharacterSaga.cs:73-86 | IsFailed and FailureReason are set, the store ends as compensation leaves it, and the instance is marked complete |
| CharacterSaga.CreateCharacterSaga.CompensateCharacterCreation | DungeonCrawler_Game_Service.Application/Features/Characters/Sagas/CreateCharacterSaga.cs:91-119 | the store and the outcome are those of `Compensation` |
| CharacterSaga.SagaStorage.constructor | DungeonCrawler_Game_Service.Application/Features/Characters/Sagas/CreateCharacterSaga.cs:14-17 | no saga instance exists at first |
| CharacterSaga.SagaStorage.Dispatch | DungeonCrawler_Game_Service.Application/Features/Characters/Sagas/CreateCharacterSaga.cs:14-86 | lookup by correlation key, creation only for the initiating message, the handler, then deletion or save: the result equals `Deliver`, and the storage invariant is kept |
| CharacterSaga.DeliverTouchesOnlyItsKey | DungeonCrawler_Game_Service.Application/Features/Characters/Sagas/CreateCharacterSaga.cs:30-35 | a message changes only the instance keyed by its CharacterId |
| CharacterSaga.OnlyCreationOpens | DungeonCrawler_Game_Service.Application/Features/Characters/Sagas/CreateCharacterSaga.cs:14-17 | a key with no instance gains one only from a CreateCharacterEvent with that CharacterId |
| CharacterSaga.DecisionWithoutInstanceIsIgnored | DungeonCrawler_Game_Service.Application/Features/Characters/Sagas/CreateCharacterSaga.cs:14-17 | a confirmation or failure with no open instance changes nothing |
| CharacterSaga.CreationRecordsFields | DungeonCrawler_Game_Service.Application/Features/Characters/Sagas/CreateCharacterSaga.cs:43-45 | the creation event leaves an open instance under its id with CharacterId, UserId and CreatedAt recorded, and leaves the store alone |
| CharacterSaga.ConfirmationCloses | DungeonCrawler_Game_Service.Application/Features/Characters/Sagas/CreateCharacterSaga.cs:60-66 | confirmation of an open instance sets IsCompleted, closes the instance and leaves the store untouched |
| CharacterSaga.FailureCompensatesAndCloses | DungeonCrawler_Game_Service.Application/Features/Characters/Sagas/CreateCharacterSaga.cs:75-85 | failure of an open instance sets IsFailed and FailureReason, compensates in the store, and closes the instance |
| CharacterSaga.DeliverKeepsValid | DungeonCrawler_Game_Service.Application/Features/Characters/Sagas/CreateCharacterSaga.cs:30-35 | every stored instance stays keyed by its own CharacterId and stays open |
| CharacterSaga.ClosedHasOneDecision | DungeonCrawler_Game_Service.Application/Features/Characters/Sagas/CreateCharacterSaga.cs:58-86 | an instance closed by a delivery carries exactly one of IsCompleted and IsFailed |
| CharacterSaga.NeverBothCompletedAndFailed | DungeonCrawler_Game_Service.Application/Features/Characters/Sagas/CreateCharacterSaga.cs:58-86 | over any run of deliveries, no closed instance is both completed and failed, and the storage invariant is kept |
| CharacterSaga.SecondDecisionIsIgnored | DungeonCrawler_Game_Service.Application/Features/Characters/Sagas/CreateCharacterSaga.cs:58-86 | after one decision closed the instance, a second decision for the same id is dropped |
| CharacterSaga.CreateThenConfirm | DungeonCrawler_Game_Service.Application/Features/Characters/Sagas/CreateCharacterSaga.cs:40-68 | creation then confirmation leaves no instance, a completed final state and the character in place |
| CharacterSaga.CreateThenFail | DungeonCrawler_Game_Service.Application/Features/Characters/Sagas/CreateCharacterSaga.cs:73-109 | creation then failure, with a working store, deletes the character and closes the instance as failed |
| CharacterSaga.FailWithBrokenStoreStillCloses | DungeonCrawler_Game_Service.Application/Features/Characters/Sagas/CreateCharacterSaga.cs:111-118 | if the delete throws, the error is swallowed: the instance still closes and the character remains |
| EquipSkin.Handle | DungeonCrawler_Game_Service.Application/Features/Characters/Commands/EquipSkinCommandHandler.cs:20-63 | the store and the result are those of `Equip` |
| EquipSkin.MissingCharacterFails | DungeonCrawler_Game_Service.Application/Features/Characters/Commands/EquipSkinCommandHandler.cs:31-36 | a missing character throws "Character {id} not found", and no update is made |
| EquipSkin.EquipChangesOnlyTheSkin | DungeonCrawler_Game_Service.Application/Features/Characters/Commands/EquipSkinCommandHandler.cs:44-50 | on success the result is true, ActiveSkinId is the requested skin, no other field changes, and no other character changes |
| EquipSkin.StoreErrorsAreRethrown | DungeonCrawler_Game_Service.Application/Features/Characters/Commands/EquipSkinCommandHandler.cs:52-61 | every store error reaches the caller, and the store is left unchanged |
| EquipSkin.EquipIsIdempotent | DungeonCrawler_Game_Service.Application/Features/Characters/Commands/EquipSkinCommandHandler.cs:44-45 | equipping the same skin twice is equipping it once |
| LinkRoomsUndirected.WithLink | DungeonCrawler_Game_Service.Application/Features/Dungeons/Commands/LinkRoomsCommandHandler.cs:22-34 | links are unchanged if (from, to) or (to, from) exists; otherwise exactly (from, to) is appended |
| LinkRoomsUndirected.Handle | DungeonCrawler_Game_Service.Application/Features/Dungeons/Commands/LinkRoomsCommandHandler.cs:17-41 | a missing dungeon dereferences null and changes nothing; otherwise the returned dungeon's links are `WithLink` of its links, the store holds that dungeon, and an existing link leaves the store unchanged |
| LinkRoomsUndirected.WithLinkKeepsAndLinks | DungeonCrawler_Game_Service.Application/Features/Dungeons/Commands/LinkRoomsCommandHandler.cs:22-34 | existing links are kept, in order, and afterwards the rooms are linked in one direction or the other |
| LinkRoomsUndirected.WithLinkIsIdempotent | DungeonCrawler_Game_Service.Application/Features/Dungeons/Commands/LinkRoomsCommandHandler.cs:22-27 | applying the same command twice adds one link |
| LinkRoomsUndirected.ReverseLinkAddsNothing | DungeonCrawler_Game_Service.Application/Features/Dungeons/Commands/LinkRoomsCommandHandler.cs:23-24 | linking (a, b) and then (b, a) adds only one link |
| LinkRoomsDirected.WithDirectedLink | DungeonCrawler_Game_Service.Application/Features/LinkRooms/Commands/LinkRoomsCommandHandler.cs:20-29 | links are unchanged if (from, to) exists; otherwise exactly (from, to) is appended |
| LinkRoomsDirected.Handle | DungeonCrawler_Game_Service.Application/Features/LinkRooms/Commands/LinkRoomsCommandHandler.cs:12-35 | a missing dungeon throws KeyNotFound "Dungeon {id} not found" and changes nothing; otherwise the returned dungeon's links are `WithDirectedLink` of its links, the store holds that dungeon, and an existing link leaves the store unchanged |
| LinkRoomsDirected.WithDirectedLinkKeepsAndLinks | DungeonCrawler_Game_Service.Application/Features/LinkRooms/Commands/LinkRoomsCommandHandler.cs:20-29 | existing links are kept, in order, and afterwards (from, to) is linked |
| LinkRoomsDirected.WithDirectedLinkIsIdempotent | DungeonCrawler_Game_Service.Application/Features/LinkRooms/Commands/LinkRoomsCommandHandler.cs:20-23 | applying the same (from, to) twice adds one link |
| LinkRoomsDirected.ReverseLinkIsAdded | DungeonCrawler_Game_Service.Application/Features/LinkRooms/Commands/LinkRoomsCommandHandler.cs:20-21 | a reverse link is not a duplicate: (a, b) then (b, a) appends both |
| LinkRoomsValidator.DigitPrefix | DungeonCrawler_Game_Service.Application/Features/Dungeons/Validators/LinkRoomsCommandValidator.cs:34-35 | `TakeWhile(char.IsDigit)`: the longest all-digit prefix |
| LinkRoomsValidator.ParseInt32 | DungeonCrawler_Game_Service.Application/Features/Dungeons/Validators/LinkRoomsCommandValidator.cs:34-35 | `int.Parse` on digits: FormatException when empty, OverflowException above Int32.MaxValue, otherwise the decimal value |
| LinkRoomsValidator.RoomNumberOfMatchingId | DungeonCrawler_Game_Service.Application/Features/Dungeons/Validators/LinkRoomsCommandValidator.cs:23-35 | an id matching the pattern has a non-empty number, which is everything but its last letter |
| LinkRoomsValidator.SequentialIffNextNumber | DungeonCrawler_Game_Service.Application/Features/Dungeons/Validators/LinkRoomsCommandValidator.cs:31-38 | for well-formed ids, the rule holds iff ToRoomId's number equals FromRoomId's number plus 1 (with C# wrap-around) |
| LinkRoomsValidator.FieldErrorsAreNotSequential | DungeonCrawler_Game_Service.Application/Features/Dungeons/Validators/LinkRoomsCommandValidator.cs:16-28 | the per-field rules never produce the sequential-rule message |
| LinkRoomsValidator.LettersAreIrrelevant | DungeonCrawler_Game_Service.Application/Features/Dungeons/Validators/LinkRoomsCommandValidator.cs:34-36 | the letter suffixes never affect the sequential rule |
| LinkRoomsValidator.SequentialExamples | DungeonCrawler_Game_Service.Application/Features/Dungeons/Validators/LinkRoomsCommandValidator.cs:31-38 | 1a to 2b and 2b to 3a are sequential; 2b to 2c is not |
| LinkRoomsValidator.WellFormedCommandPasses | DungeonCrawler_Game_Service.Application/Features/Dungeons/Validators/LinkRoomsCommandValidator.cs:16-38 | an ObjectId dungeon, well-formed ids and consecutive numbers give no errors |
| LinkRoomsValidator.PatternExamples | DungeonCrawler_Game_Service.Application/Features/Dungeons/Validators/LinkRoomsCommandValidator.cs:23 | "1a", "10c" and "1a\n" match the pattern; "a1", "1" and "1ab" do not |
| LinkRoomsValidator.EmptyFromRoomIdMessage | DungeonCrawler_Game_Service.Application/Features/Dungeons/Validators/LinkRoomsCommandValidator.cs:26-28 | an empty FromRoomId reports "ToRoomId is required." and the format message |
| LinkRoomsValidator.EmptyToRoomIdThrows | DungeonCrawler_Game_Service.Application/Features/Dungeons/Validators/LinkRoomsCommandValidator.cs:34 | a ToRoomId without a leading digit makes `int.Parse` throw FormatException |
| LinkRoomsValidator.MaxRoomNumberHasNoSuccessor | DungeonCrawler_Game_Service.Application/Features/Dungeons/Validators/LinkRoomsCommandValidator.cs:36 | from room number Int32.MaxValue, no room is sequential, because + 1 wraps |
| LinkRoomsValidator.DungeonIdRules | DungeonCrawler_Game_Service.Application/Features/Dungeons/Validators/LinkRoomsCommandValidator.cs:16-18 | the DungeonId rules give no error iff the id is an ObjectId; any other id gets the ObjectId message; an empty id gets both messages |
| LinkRoomsValidator.ValidateAcceptsIff | DungeonCrawler_Game_Service.Application/Features/Dungeons/Validators/LinkRoomsCommandValidator.cs:16-38 | the validator returns no error and throws nothing iff the DungeonId is a non-blank ObjectId, both room ids are non-blank and match `^\d+[a-zA-Z]$`, and the to-number is the from-number + 1 |
| LinkRoomsValidator.MalformedRoomIdIsRejected | DungeonCrawler_Game_Service.Application/Features/Dungeons/Validators/LinkRoomsCommandValidator.cs:16-28 | when the sequential rule does not throw, a blank or malformed room id, a blank DungeonId and a non-ObjectId DungeonId each put their own message among the errors |
| NextRoomsByLevel.FirstLevelNumbered | DungeonCrawler_Game_Service.Application/Features/NextRooms/Queries/GetNextRoomsQueryHandler.cs:24 | the first level with that number, or None iff there is none |
| NextRoomsByLevel.UnknownDungeonIsTheOnlyError | DungeonCrawler_Game_Service.Application/Features/NextRooms/Queries/GetNextRoomsQueryHandler.cs:14-18 | the query fails iff the dungeon is missing, with KeyNotFound "Dungeon {id} not found" |
| NextRoomsByLevel.UnknownRoomGivesNothing | DungeonCrawler_Game_Service.Application/Features/NextRooms/Queries/GetNextRoomsQueryHandler.cs:20-21 | a room id found on no level gives an empty list |
| NextRoomsByLevel.LastLevelGivesNothing | DungeonCrawler_Game_Service.Application/Features/NextRooms/Queries/GetNextRoomsQueryHandler.cs:24-25 | with no level numbered current + 1, the result is empty |
| NextRoomsByLevel.NextLevelRooms | DungeonCrawler_Game_Service.Application/Features/NextRooms/Queries/GetNextRoomsQueryHandler.cs:20-27 | otherwise the result is exactly the rooms of the first level numbered current + 1 |
| NextRoomsByLevel.FirstLevelWithRoomIsUnique | DungeonCrawler_Game_Service.Application/Features/NextRooms/Queries/GetNextRoomsQueryHandler.cs:20 | the first level holding the room is the holding level with no earlier holder |
| NextRoomsByLevel.FirstLevelNumberedIsUnique | DungeonCrawler_Game_Service.Application/Features/NextRooms/Queries/GetNextRoomsQueryHandler.cs:24 | the first level with a number is the one with no earlier level of that number |
| NextRoomsByLevel.NextRoomsComeFromTheDungeon | DungeonCrawler_Game_Service.Application/Features/NextRooms/Queries/GetNextRoomsQueryHandler.cs:27 | every returned room lies on a level of the dungeon |
| NextRoomsByPrefix.RoomTest | DungeonCrawler_Game_Service.Application/Features/Dungeons/Queries/GetNextRoomsQueryHandler.cs:28 | the `Where` predicate throws iff NextRoomId is "" and the room id is not; otherwise it admits the room iff its id equals NextRoomId or starts with NextRoomId's first character, or NextRoomId is null |
| NextRoomsByPrefix.FilterOutcome | DungeonCrawler_Game_Service.Application/Features/Dungeons/Queries/GetNextRoomsQueryHandler.cs:26-29 | the filter throws ArgumentOutOfRange iff some room makes the predicate throw; otherwise its result is a subsequence of the rooms |
| NextRoomsByPrefix.FilterMembership | DungeonCrawler_Game_Service.Application/Features/Dungeons/Queries/GetNextRoomsQueryHandler.cs:28 | a room is kept iff it is among the rooms and the predicate admits it |
| NextRoomsByPrefix.FilterWithoutNextKeepsAll | DungeonCrawler_Game_Service.Application/Features/Dungeons/Queries/GetNextRoomsQueryHandler.cs:28 | if NextRoomId is null (the last level), the prefix is "" and every room is returned |
| NextRoomsByPrefix.GetNextRoomsMeaning | DungeonCrawler_Game_Service.Application/Features/Dungeons/Queries/GetNextRoomsQueryHandler.cs:17-32 | a missing dungeon dereferences null; a successful result is a subsequence of all rooms, in level-then-room order, holding exactly the admitted rooms |
| NextRoomsByPrefix.UnknownRoomIsNullReference | DungeonCrawler_Game_Service.Application/Features/Dungeons/Queries/GetNextRoomsQueryHandler.cs:23-28 | an unknown current room dereferences null exactly when the dungeon has a room to test |
| NextRoomsByPrefix.LastLevelReturnsEveryRoom | DungeonCrawler_Game_Service.Application/Features/Dungeons/Queries/GetNextRoomsQueryHandler.cs:23-29 | a current room without NextRoomId gives every room of the dungeon |
| NextRoomsByPrefix.EmptyNextIdThrows | DungeonCrawler_Game_Service.Application/Features/Dungeons/Queries/GetNextRoomsQueryHandler.cs:28 | an empty NextRoomId throws iff some room has a non-empty id |
| NextRoomsByPrefix.OneCharacterPrefixOverreaches | DungeonCrawler_Game_Service.Application/Features/Dungeons/Queries/GetNextRoomsQueryHandler.cs:28 | next "12a" also admits "1a" and "10b" but not "2a", and the filter returns "1a" and "10b" |
| EnterRoom.RoomEvent | DungeonCrawler_Game_Service.Application/Features/EnterRoom/Queries/EnterRoomQueryHandler.cs:26-46 | the event is "La salle n'existe pas" iff there is no room |
| EnterRoom.OneEventPerEntry | DungeonCrawler_Game_Service.Application/Features/EnterRoom/Queries/EnterRoomQueryHandler.cs:15-46 | a missing dungeon is the only error (KeyNotFound "Dungeon {id} not found"); otherwise exactly one event is produced |
| EnterRoom.UnknownRoom | DungeonCrawler_Game_Service.Application/Features/EnterRoom/Queries/EnterRoomQueryHandler.cs:28-51 | an unknown room gives RoomId null, Level 0 and "La salle n'existe pas" |
| EnterRoom.KnownRoom | DungeonCrawler_Game_Service.Application/Features/EnterRoom/Queries/EnterRoomQueryHandler.cs:20-51 | a known room gives RoomId = the requested id and Level = the number of the first level holding it; the room found lies on that level, and its event is not the no-room line |
| EnterRoom.MonsterlessCombatRoomIsEmpty | DungeonCrawler_Game_Service.Application/Features/EnterRoom/Queries/EnterRoomQueryHandler.cs:31-45 | a combat room without monsters falls through to "La salle est vide..." |
| EnterRoom.CombatRoomCountsMonsters | DungeonCrawler_Game_Service.Application/Features/EnterRoom/Queries/EnterRoomQueryHandler.cs:31-32 | a combat room with monsters names their number, and is not the empty-room line |
| EnterRoom.FirstRoomIsOnFirstLevel | DungeonCrawler_Game_Service.Application/Features/EnterRoom/Queries/EnterRoomQueryHandler.cs:20-21 | the room found among all rooms lies on the first level that holds its id |

## Left out

- Concurrency is not modelled. This covers:
  - the lock in `MongoDbConfiguration.Configure`;
  - the double-processing race in the dungeon-completed consumer;
  - bus redelivery and retries;
  - saga revision conflicts.

  Every model is sequential.
- The transports are not modelled: Rebus, RabbitMQ and MongoDB. The saga
  data's `Id` and `Revision` are bus bookkeeping and are left out.
  `SagaStorage` stands in for the bus's saga storage.
- Time and fresh ids are parameters: `DateTime.UtcNow`, `Guid.NewGuid` and
  `ObjectId.GenerateNewId`.
- The repositories and the unit of work are modelled as the value
  collections of the store classes. Consequences:
  - an update by Id replaces the document that was loaded, at its
    position or under its key;
  - the string-typed Id filter of `UpdateAsync` is taken to match the
    document. This may be a defect in the source
    (`GenericRepository.cs:37-44`, not executed): the quest documents'
    ids are Guids, but the filter compares them with the Id's string form.
    What the store would do if that filter failed to match is not
    modelled;
  - under that match assumption the upsert branch never arises, because
    every update in the core follows a successful lookup.
- `Fold`, `EqualsIgnoreCase` and `ContainsIgnoreCase` approximate
  `StringComparison.OrdinalIgnoreCase` by ASCII case folding.
- `IsBlank` approximates `NotEmpty()`, with ASCII white space.
- `\d` and `char.IsDigit` are approximated by ASCII digits.
- `ObjectId.TryParse` becomes a 24-hex-digit predicate.
- `NextRoomsByPrefix.RoomTest`: `StartsWith(string)` is culture-sensitive
  in .NET, but is modelled as an ordinal prefix test.
- `DungeonCompleted.Handle`: a store that throws partway through the loop
  is not modelled. It would leave some records updated and the event
  unrecorded.
- `PlayerQuestsHandlers.GetPlayerQuests`: the `Quest` navigation property
  that the join assigns in place is modelled as a record-and-definition
  pair (`PlayerQuestView`).
- Null strings are modelled only where the code tests for them:
  - the room's `NextRoomId` is an `Option`;
  - a room id itself is never null.
- `CreateCharacter.NewCharacter`: `ActiveSkinId` is not set by the
  handler, and the domain `Character.cs` does not declare it. It is
  assumed to start as the empty string.
- The `Room.Type` enum is not modelled. The enter-room switch dispatches on
  the room's subclass, which the model represents as `RoomKind`.
- Logging and `Console.WriteLine` produce no state and are left out.
- These parts of the service are outside the core and are not part of
  this model:
  - procedural dungeon generation (`System.Random`);
  - `DungeonService` and `CharacterService`;
  - the controllers and the exception middleware;
  - the MediatR validation behaviour;
  - `Program.cs`;
  - the thin lookup queries;
  - the placeholder enter-room handler under `Dungeons/Queries`.
- `MongoConfiguration.ElementName` and `MongoConfiguration.Apply` require
  a non-empty member name, because the source indexes `MemberName[0]`.
  The driver never produces an empty member name.
- `QuestsHandlers.Create` requires a fresh id (`newId` not among the stored
  ids), which stands in for `Guid.NewGuid`.
- `CreateCharacter.Handle` requires a fresh id (`newId` not a key of the
  store), which stands in for `ObjectId.GenerateNewId`.
- `MongoConfiguration.CamelCase` lowers the first character over ASCII
  only. The source's `char.ToLowerInvariant` also lowers non-ASCII
  capitals such as 'É', so the model keeps a name such as "Étape"
  unchanged where the source stores it as "étape".
- `MongoConfiguration.CamelCaseOfLowerIsUnchanged` holds for the model's
  ASCII lowering only. For the source it fails on a name starting with a
  non-ASCII capital letter.
