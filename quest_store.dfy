/** The quest service's unit of work: the quest definitions, the player
    progress records and the ledger of processed event ids, each an ordered
    collection as `GetAllAsync` returns it. */
module QuestStore {
  import opened Common
  import opened QuestDomain

  /** Quest ids are the collection's primary key. */
  predicate DistinctQuestIds(qs: seq<QuestDefinition>) {
    forall i, j | 0 <= i < j < |qs| :: qs[i].id != qs[j].id
  }

  function QuestIds(qs: seq<QuestDefinition>): set<Guid> {
    set q | q in qs :: q.id
  }

  predicate IsRecordOf(r: PlayerQuestRecord, playerId: Guid, questId: Guid) {
    r.playerId == playerId && r.questId == questId
  }

  /** `FirstOrDefault(x => x.PlayerId == playerId && x.QuestId == questId)`,
      as an index: the first record of that player for that quest. */
  function FindPlayerQuest(pqs: seq<PlayerQuestRecord>, playerId: Guid, questId: Guid): (r: Option<nat>)
    ensures r.Some? ==> r.value < |pqs| && IsRecordOf(pqs[r.value], playerId, questId)
    ensures r.Some? ==> forall k | 0 <= k < r.value :: !IsRecordOf(pqs[k], playerId, questId)
    ensures r.None? <==> forall k | 0 <= k < |pqs| :: !IsRecordOf(pqs[k], playerId, questId)
    decreases |pqs|
  {
    if pqs == [] then None
    else if IsRecordOf(pqs[0], playerId, questId) then Some(0)
    else match FindPlayerQuest(pqs[1..], playerId, questId)
      case None => None
      case Some(i) => Some(i + 1)
  }

  /** `GetByIdAsync(id)` on the quest collection: the first definition
      with that id, as an index. */
  function FindQuest(qs: seq<QuestDefinition>, id: Guid): (r: Option<nat>)
    ensures r.Some? ==> r.value < |qs| && qs[r.value].id == id
    ensures r.Some? ==> forall k | 0 <= k < r.value :: qs[k].id != id
    ensures r.None? <==> id !in QuestIds(qs)
    decreases |qs|
  {
    if qs == [] then None
    else if qs[0].id == id then Some(0)
    else match FindQuest(qs[1..], id)
      case None =>
        assert QuestIds(qs) == {qs[0].id} + QuestIds(qs[1..]);
        None
      case Some(i) => Some(i + 1)
  }

  /** The first-match index depends only on the player and quest ids of the
      records, so rewriting records without touching those ids leaves it. */
  lemma {:induction false} FindPlayerQuestKeysOnly(a: seq<PlayerQuestRecord>, b: seq<PlayerQuestRecord>, playerId: Guid, questId: Guid)
    requires |a| == |b|
    requires forall i | 0 <= i < |a| :: a[i].playerId == b[i].playerId && a[i].questId == b[i].questId
    ensures FindPlayerQuest(a, playerId, questId) == FindPlayerQuest(b, playerId, questId)
    decreases |a|
  {
    if a != [] && !IsRecordOf(a[0], playerId, questId) {
      FindPlayerQuestKeysOnly(a[1..], b[1..], playerId, questId);
    }
  }

  /** Appending a record: an earlier match wins, otherwise the new record is
      found if it matches. */
  lemma {:induction false} FindPlayerQuestAppend(s: seq<PlayerQuestRecord>, x: PlayerQuestRecord, playerId: Guid, questId: Guid)
    ensures FindPlayerQuest(s + [x], playerId, questId) ==
      if FindPlayerQuest(s, playerId, questId).Some? then FindPlayerQuest(s, playerId, questId)
      else if IsRecordOf(x, playerId, questId) then Some(|s|)
      else None
    decreases |s|
  {
    if s != [] && !IsRecordOf(s[0], playerId, questId) {
      assert (s + [x])[1..] == s[1..] + [x];
      FindPlayerQuestAppend(s[1..], x, playerId, questId);
    }
  }

  /** The ordered contents of the three collections. */
  datatype QuestState = QuestState(
    quests: seq<QuestDefinition>,
    playerQuests: seq<PlayerQuestRecord>,
    processedEvents: seq<Guid>)

  class QuestStore {
    var quests: seq<QuestDefinition>
    var playerQuests: seq<PlayerQuestRecord>
    /** The `ProcessedEvent` documents, by their `EventId`. */
    var processedEvents: seq<Guid>

    ghost predicate Valid()
      reads this
    {
      DistinctQuestIds(quests)
    }

    function State(): QuestState
      reads this
    {
      QuestState(quests, playerQuests, processedEvents)
    }

    constructor (quests: seq<QuestDefinition>, playerQuests: seq<PlayerQuestRecord>, processedEvents: seq<Guid>)
      ensures State() == QuestState(quests, playerQuests, processedEvents)
    {
      this.quests := quests;
      this.playerQuests := playerQuests;
      this.processedEvents := processedEvents;
    }

    /** `questRepo.AddAsync(q)`: an insert under a fresh key. */
    method AddQuest(q: QuestDefinition)
      requires Valid() && q.id !in QuestIds(quests)
      modifies this
      ensures Valid()
      ensures quests == old(quests) + [q]
      ensures playerQuests == old(playerQuests) && processedEvents == old(processedEvents)
    {
      forall i | 0 <= i < |quests| ensures quests[i].id != q.id {
        assert quests[i] in quests;
      }
      quests := quests + [q];
    }

    /** `questRepo.UpdateAsync(q)` for the definition loaded from position
        `i`; the id is the document key and does not change. */
    method UpdateQuestAt(i: nat, q: QuestDefinition)
      requires Valid() && i < |quests| && q.id == quests[i].id
      modifies this
      ensures Valid()
      ensures quests == old(quests)[i := q]
      ensures playerQuests == old(playerQuests) && processedEvents == old(processedEvents)
    {
      quests := quests[i := q];
    }

    /** `playerQuestRepo.AddAsync(pq)`. */
    method AddPlayerQuest(r: PlayerQuestRecord)
      modifies this
      ensures playerQuests == old(playerQuests) + [r]
      ensures quests == old(quests) && processedEvents == old(processedEvents)
    {
      playerQuests := playerQuests + [r];
    }

    /** `repo.UpdateAsync(pq)` for the record loaded from position `i`: the
        document with the record's id is replaced. */
    method UpdatePlayerQuestAt(i: nat, r: PlayerQuestRecord)
      requires i < |playerQuests|
      modifies this
      ensures playerQuests == old(playerQuests)[i := r]
      ensures quests == old(quests) && processedEvents == old(processedEvents)
    {
      playerQuests := playerQuests[i := r];
    }

    /** `eventRepo.AddAsync(new ProcessedEvent { EventId })`. */
    method AddProcessedEvent(eventId: Guid)
      modifies this
      ensures processedEvents == old(processedEvents) + [eventId]
      ensures quests == old(quests) && playerQuests == old(playerQuests)
    {
      processedEvents := processedEvents + [eventId];
    }
  }
}
