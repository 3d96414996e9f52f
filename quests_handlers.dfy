/** `QuestsHandlers`: listing, lookup, creation, update and soft deletion of
    quest definitions. */
module QuestsHandlers {
  import opened Common
  import opened QuestDomain
  import opened QuestStore

  datatype GetAllQuestsQuery = GetAllQuestsQuery(isActiveOnly: Option<bool>, searchKeyword: Option<string>)

  datatype CreateQuestCommand = CreateQuestCommand(
    code: string, title: string, description: string, targetCount: Int32, reward: string)

  datatype UpdateQuestCommand = UpdateQuestCommand(
    id: Guid, title: string, description: string, targetCount: Int32, reward: string, isActive: bool)

  // ---------------------------------------------------------------------
  // GET ALL / GET BY ID
  // ---------------------------------------------------------------------

  /** The two optional filters: `IsActive` must equal `IsActiveOnly` when
      it has a value, and a non-empty keyword must occur in the title or the
      code, ignoring case. */
  predicate Listed(q: QuestDefinition, query: GetAllQuestsQuery) {
    && (query.isActiveOnly.Some? ==> q.isActive == query.isActiveOnly.value)
    && (query.searchKeyword.Some? && query.searchKeyword.value != "" ==>
          ContainsIgnoreCase(q.title, query.searchKeyword.value) ||
          ContainsIgnoreCase(q.code, query.searchKeyword.value))
  }

  /** `Handle(GetAllQuestsQuery)`: the stored quests, in store order, through
      the two `Where` clauses. */
  function GetAll(qs: seq<QuestDefinition>, query: GetAllQuestsQuery): seq<QuestDefinition>
    decreases |qs|
  {
    if qs == [] then []
    else (if Listed(qs[0], query) then [qs[0]] else []) + GetAll(qs[1..], query)
  }

  /** Listing keeps the store order and holds exactly the quests that pass
      both filters. */
  lemma {:induction false} GetAllMeaning(qs: seq<QuestDefinition>, query: GetAllQuestsQuery, q: QuestDefinition)
    ensures IsSubsequence(GetAll(qs, query), qs)
    ensures q in GetAll(qs, query) <==> q in qs && Listed(q, query)
    decreases |qs|
  {
    if qs != [] {
      GetAllMeaning(qs[1..], query, q);
      assert qs == [qs[0]] + qs[1..];
      if Listed(qs[0], query) {
        assert ([qs[0]] + GetAll(qs[1..], query))[1..] == GetAll(qs[1..], query);
      } else {
        assert GetAll(qs, query) == GetAll(qs[1..], query);
      }
    }
  }

  /** With neither filter every quest is listed. */
  lemma {:induction false} GetAllUnfiltered(qs: seq<QuestDefinition>, keyword: Option<string>)
    requires keyword.None? || keyword == Some("")
    ensures GetAll(qs, GetAllQuestsQuery(None, keyword)) == qs
    decreases |qs|
  {
    if qs != [] {
      GetAllUnfiltered(qs[1..], keyword);
      assert [qs[0]] + qs[1..] == qs;
    }
  }

  /** `Handle(GetQuestByIdQuery)`: the definition with that id, or null. */
  function GetById(qs: seq<QuestDefinition>, id: Guid): (r: Option<QuestDefinition>)
    ensures r.Some? <==> id in QuestIds(qs)
    ensures r.Some? ==> r.value in qs && r.value.id == id
  {
    match FindQuest(qs, id)
    case None => None
    case Some(i) => Some(qs[i])
  }

  /** In a store with distinct ids, the lookup returns the one quest with
      that id. */
  lemma GetByIdOfDistinct(qs: seq<QuestDefinition>, i: nat)
    requires DistinctQuestIds(qs) && i < |qs|
    ensures GetById(qs, qs[i].id) == Some(qs[i])
  {
  }

  // ---------------------------------------------------------------------
  // CREATE
  // ---------------------------------------------------------------------

  /** Some stored code equals `code`, ignoring case. */
  predicate CodeTaken(qs: seq<QuestDefinition>, code: string) {
    exists i | 0 <= i < |qs| :: EqualsIgnoreCase(qs[i].code, code)
  }

  function DuplicateCodeMessage(code: string): string {
    "Le code quête '" + code + "' est déjà utilisé."
  }

  /** The definition the handler builds: the request's fields, active, of
      the default type and with no time window. */
  function NewQuest(id: Guid, cmd: CreateQuestCommand): (q: QuestDefinition)
    ensures q.id == id && q.code == cmd.code && q.title == cmd.title
    ensures q.description == cmd.description && q.targetCount == cmd.targetCount && q.reward == cmd.reward
    ensures q.isActive && q.questType == DUNGEON_COMPLETION && q.startAt.None? && q.endAt.None?
  {
    QuestDefinition(id, cmd.code, cmd.title, cmd.description, DUNGEON_COMPLETION, cmd.targetCount, true, None, None, cmd.reward)
  }

  /** The outcome of `Handle(CreateQuestCommand)` on the quest list: the
      result and the list afterwards. */
  function Created(qs: seq<QuestDefinition>, cmd: CreateQuestCommand, newId: Guid): (Result<Guid, string>, seq<QuestDefinition>) {
    if CodeTaken(qs, cmd.code) then (Failure(DuplicateCodeMessage(cmd.code)), qs)
    else (Success(newId), qs + [NewQuest(newId, cmd)])
  }

  /** `Handle(CreateQuestCommand)`. `Guid.NewGuid()` is the fresh `newId`;
      the thrown `Exception` is the `Failure`. */
  method Create(store: QuestStore, cmd: CreateQuestCommand, newId: Guid) returns (r: Result<Guid, string>)
    requires store.Valid() && newId !in QuestIds(store.quests)
    modifies store
    ensures store.Valid()
    ensures (r, store.quests) == Created(old(store.quests), cmd, newId)
    ensures store.playerQuests == old(store.playerQuests) && store.processedEvents == old(store.processedEvents)
  {
    var taken := CodeTaken(store.quests, cmd.code);
    if taken {
      return Failure(DuplicateCodeMessage(cmd.code));
    }
    var q := NewQuest(newId, cmd);
    store.AddQuest(q);
    r := Success(newId);
  }

  /** Creation fails exactly on a code already taken ignoring case, and then
      changes nothing; otherwise exactly one quest is appended. */
  lemma CreateOutcome(qs: seq<QuestDefinition>, cmd: CreateQuestCommand, newId: Guid)
    ensures Created(qs, cmd, newId).0.Failure? <==> CodeTaken(qs, cmd.code)
    ensures CodeTaken(qs, cmd.code) ==> Created(qs, cmd, newId).0 == Failure(DuplicateCodeMessage(cmd.code))
    ensures !CodeTaken(qs, cmd.code) ==> Created(qs, cmd, newId).0 == Success(newId)
    ensures CodeTaken(qs, cmd.code) ==> Created(qs, cmd, newId).1 == qs
    ensures !CodeTaken(qs, cmd.code) ==>
      var after := Created(qs, cmd, newId).1;
      |after| == |qs| + 1 && after[..|qs|] == qs && after[|qs|] == NewQuest(newId, cmd)
  {
    if !CodeTaken(qs, cmd.code) {
      assert (qs + [NewQuest(newId, cmd)])[..|qs|] == qs;
    }
  }

  /** Codes unique ignoring case. */
  predicate CodesDistinctIgnoreCase(qs: seq<QuestDefinition>) {
    forall i, j | 0 <= i < j < |qs| :: !EqualsIgnoreCase(qs[i].code, qs[j].code)
  }

  /** Creation keeps codes unique ignoring case, and afterwards the same
      code, in any letter case, is taken. */
  lemma CreateKeepsCodesDistinct(qs: seq<QuestDefinition>, cmd: CreateQuestCommand, newId: Guid, other: string)
    requires CodesDistinctIgnoreCase(qs)
    requires EqualsIgnoreCase(other, cmd.code)
    ensures CodesDistinctIgnoreCase(Created(qs, cmd, newId).1)
    ensures CodeTaken(Created(qs, cmd, newId).1, other)
  {
    var after := Created(qs, cmd, newId).1;
    if !CodeTaken(qs, cmd.code) {
      forall i, j | 0 <= i < j < |after| ensures !EqualsIgnoreCase(after[i].code, after[j].code) {
        if j == |qs| {
          assert after[i] == qs[i];
          assert !EqualsIgnoreCase(qs[i].code, cmd.code);
        } else {
          assert after[i] == qs[i] && after[j] == qs[j];
        }
      }
      assert EqualsIgnoreCase(after[|qs|].code, other);
    } else {
      var i :| 0 <= i < |qs| && EqualsIgnoreCase(qs[i].code, cmd.code);
      assert EqualsIgnoreCase(qs[i].code, other);
    }
  }

  // ---------------------------------------------------------------------
  // UPDATE / DELETE
  // ---------------------------------------------------------------------

  /** The fields `Handle(UpdateQuestCommand)` overwrites; id, code, type and
      time window stay. */
  function WithUpdate(q: QuestDefinition, cmd: UpdateQuestCommand): QuestDefinition {
    q.(title := cmd.title, description := cmd.description, targetCount := cmd.targetCount,
       reward := cmd.reward, isActive := cmd.isActive)
  }

  function Updated(qs: seq<QuestDefinition>, cmd: UpdateQuestCommand): (bool, seq<QuestDefinition>) {
    match FindQuest(qs, cmd.id)
    case None => (false, qs)
    case Some(i) => (true, qs[i := WithUpdate(qs[i], cmd)])
  }

  /** `Handle(UpdateQuestCommand)`: load by id, overwrite, write back. */
  method Update(store: QuestStore, cmd: UpdateQuestCommand) returns (found: bool)
    requires store.Valid()
    modifies store
    ensures store.Valid()
    ensures (found, store.quests) == Updated(old(store.quests), cmd)
    ensures store.playerQuests == old(store.playerQuests) && store.processedEvents == old(store.processedEvents)
  {
    var i := FindQuest(store.quests, cmd.id);
    if i.None? {
      return false;
    }
    var quest := store.quests[i.value];
    quest := WithUpdate(quest, cmd);
    store.UpdateQuestAt(i.value, quest);
    found := true;
  }

  /** An unknown id reports false and changes nothing; a known one has
      exactly its five fields replaced, and no other quest changes. */
  lemma UpdateOutcome(qs: seq<QuestDefinition>, cmd: UpdateQuestCommand)
    requires DistinctQuestIds(qs)
    ensures Updated(qs, cmd).0 <==> cmd.id in QuestIds(qs)
    ensures !Updated(qs, cmd).0 ==> Updated(qs, cmd).1 == qs
    ensures var after := Updated(qs, cmd).1;
      && |after| == |qs|
      && DistinctQuestIds(after)
      && forall i | 0 <= i < |qs| ::
        if qs[i].id == cmd.id then
          && after[i].id == qs[i].id && after[i].code == qs[i].code && after[i].questType == qs[i].questType
          && after[i].startAt == qs[i].startAt && after[i].endAt == qs[i].endAt
          && after[i].title == cmd.title && after[i].description == cmd.description
          && after[i].targetCount == cmd.targetCount && after[i].reward == cmd.reward
          && after[i].isActive == cmd.isActive
        else after[i] == qs[i]
  {
  }

  function Deleted(qs: seq<QuestDefinition>, id: Guid): (bool, seq<QuestDefinition>) {
    match FindQuest(qs, id)
    case None => (false, qs)
    case Some(i) => (true, qs[i := qs[i].(isActive := false)])
  }

  /** `Handle(DeleteQuestCommand)`: a soft delete that clears `IsActive`. */
  method Delete(store: QuestStore, id: Guid) returns (found: bool)
    requires store.Valid()
    modifies store
    ensures store.Valid()
    ensures (found, store.quests) == Deleted(old(store.quests), id)
    ensures store.playerQuests == old(store.playerQuests) && store.processedEvents == old(store.processedEvents)
  {
    var i := FindQuest(store.quests, id);
    if i.None? {
      return false;
    }
    var quest := store.quests[i.value];
    quest := quest.(isActive := false);
    store.UpdateQuestAt(i.value, quest);
    found := true;
  }

  /** Deletion is soft: the quest stays, with every field but `IsActive`;
      it reports whether the id exists. */
  lemma DeleteIsSoft(qs: seq<QuestDefinition>, id: Guid)
    requires DistinctQuestIds(qs)
    ensures Deleted(qs, id).0 <==> id in QuestIds(qs)
    ensures QuestIds(Deleted(qs, id).1) == QuestIds(qs)
    ensures var after := Deleted(qs, id).1;
      |after| == |qs| &&
      forall i | 0 <= i < |qs| ::
        if qs[i].id == id then after[i] == qs[i].(isActive := false) else after[i] == qs[i]
  {
    var after := Deleted(qs, id).1;
    if FindQuest(qs, id).Some? {
      var k := FindQuest(qs, id).value;
      assert forall i | 0 <= i < |qs| && i != k :: after[i] == qs[i];
      forall x | x in QuestIds(after) ensures x in QuestIds(qs) {
        var q :| q in after && q.id == x;
        var i :| 0 <= i < |after| && after[i] == q;
        assert qs[i].id == x;
      }
      forall x | x in QuestIds(qs) ensures x in QuestIds(after) {
        var q :| q in qs && q.id == x;
        var i :| 0 <= i < |qs| && qs[i] == q;
        assert after[i].id == x;
      }
    }
  }

  /** Deleting twice gives the same result and store as deleting once. */
  lemma DeleteIsIdempotent(qs: seq<QuestDefinition>, id: Guid)
    requires DistinctQuestIds(qs)
    ensures Deleted(Deleted(qs, id).1, id) == Deleted(qs, id)
  {
    var once := Deleted(qs, id).1;
    DeleteIsSoft(qs, id);
    if FindQuest(qs, id).Some? {
      var k := FindQuest(qs, id).value;
      FindQuestOfDistinct(once, k);
      assert once[k := once[k].(isActive := false)] == once;
    }
  }

  /** A deleted quest no longer appears among the active quests. */
  lemma DeletedQuestIsNotListedAsActive(qs: seq<QuestDefinition>, id: Guid, keyword: Option<string>, q: QuestDefinition)
    requires DistinctQuestIds(qs)
    requires q in GetAll(Deleted(qs, id).1, GetAllQuestsQuery(Some(true), keyword))
    ensures q.id != id
  {
    var after := Deleted(qs, id).1;
    GetAllMeaning(after, GetAllQuestsQuery(Some(true), keyword), q);
    DeleteIsSoft(qs, id);
    var i :| 0 <= i < |after| && after[i] == q;
  }

  lemma FindQuestOfDistinct(qs: seq<QuestDefinition>, i: nat)
    requires DistinctQuestIds(qs) && i < |qs|
    ensures FindQuest(qs, qs[i].id) == Some(i)
  {
    var r := FindQuest(qs, qs[i].id);
    assert qs[i] in qs;
    assert r.Some?;
    assert !(r.value < i);
    assert !(i < r.value);
  }
}
