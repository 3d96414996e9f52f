/** `PlayerQuestsHandlers`: a player's progress records joined with their
    quest definitions, and the reset of one record. */
module PlayerQuestsHandlers {
  import opened Common
  import opened QuestDomain
  import opened QuestStore
  import opened QuestsHandlers

  /** A loaded `PlayerQuest` with its `Quest` navigation property filled. */
  datatype PlayerQuestView = PlayerQuestView(record: PlayerQuestRecord, quest: Option<QuestDefinition>)

  /** `allPlayerQuests.Where(x => x.PlayerId == playerId)`. */
  function RecordsOf(pqs: seq<PlayerQuestRecord>, playerId: Guid): seq<PlayerQuestRecord>
    decreases |pqs|
  {
    if pqs == [] then []
    else (if pqs[0].playerId == playerId then [pqs[0]] else []) + RecordsOf(pqs[1..], playerId)
  }

  /** The player's records, in store order, and no one else's. */
  lemma {:induction false} RecordsOfMeaning(pqs: seq<PlayerQuestRecord>, playerId: Guid, r: PlayerQuestRecord)
    ensures IsSubsequence(RecordsOf(pqs, playerId), pqs)
    ensures r in RecordsOf(pqs, playerId) <==> r in pqs && r.playerId == playerId
    decreases |pqs|
  {
    if pqs != [] {
      RecordsOfMeaning(pqs[1..], playerId, r);
      assert pqs == [pqs[0]] + pqs[1..];
      if pqs[0].playerId == playerId {
        assert ([pqs[0]] + RecordsOf(pqs[1..], playerId))[1..] == RecordsOf(pqs[1..], playerId);
      } else {
        assert RecordsOf(pqs, playerId) == RecordsOf(pqs[1..], playerId);
      }
    }
  }

  /** `Handle(GetPlayerQuestsQuery)`: the `foreach` sets each record's
      `Quest` to the first definition with its quest id, or null. */
  method GetPlayerQuests(store: QuestStore, playerId: Guid) returns (views: seq<PlayerQuestView>)
    ensures |views| == |RecordsOf(store.playerQuests, playerId)|
    ensures forall i | 0 <= i < |views| ::
      && views[i].record == RecordsOf(store.playerQuests, playerId)[i]
      && views[i].quest == GetById(store.quests, views[i].record.questId)
  {
    var playerQuests := RecordsOf(store.playerQuests, playerId);
    var allQuestDefinitions := store.quests;
    views := [];
    var i := 0;
    while i < |playerQuests|
      invariant 0 <= i <= |playerQuests|
      invariant |views| == i
      invariant forall k | 0 <= k < i ::
        views[k] == PlayerQuestView(playerQuests[k], GetById(allQuestDefinitions, playerQuests[k].questId))
    {
      var pq := playerQuests[i];
      views := views + [PlayerQuestView(pq, GetById(allQuestDefinitions, pq.questId))];
      i := i + 1;
    }
  }

  /** A joined quest is the definition whose id the record names; the
      join is empty exactly when no definition has that id. */
  lemma JoinedQuestMatches(qs: seq<QuestDefinition>, v: PlayerQuestView)
    requires v.quest == GetById(qs, v.record.questId)
    ensures v.quest.Some? ==> v.quest.value.id == v.record.questId && v.quest.value in qs
    ensures v.quest.None? <==> forall k | 0 <= k < |qs| :: qs[k].id != v.record.questId
  {
    if v.quest.None? {
      forall k | 0 <= k < |qs| ensures qs[k].id != v.record.questId {
        assert qs[k] in qs;
      }
    }
  }

  // ---------------------------------------------------------------------
  // RESET
  // ---------------------------------------------------------------------

  /** The three assignments of the reset: count, status and time; the
      completion time is left as it was. */
  function ResetRecord(r: PlayerQuestRecord, now: DateTime): PlayerQuestRecord {
    r.(progressCount := 0, status := NotStarted, updatedAt := now)
  }

  /** The outcome of `Handle(ResetPlayerQuestCommand)` on the records. */
  function ResetEffect(pqs: seq<PlayerQuestRecord>, playerId: Guid, questId: Guid, now: DateTime): (bool, seq<PlayerQuestRecord>) {
    match FindPlayerQuest(pqs, playerId, questId)
    case None => (false, pqs)
    case Some(i) => (true, pqs[i := ResetRecord(pqs[i], now)])
  }

  /** `Handle(ResetPlayerQuestCommand)`; `DateTime.UtcNow` is `now`. */
  method Reset(store: QuestStore, playerId: Guid, questId: Guid, now: DateTime) returns (found: bool)
    requires store.Valid()
    modifies store
    ensures store.Valid()
    ensures (found, store.playerQuests) == ResetEffect(old(store.playerQuests), playerId, questId, now)
    ensures store.quests == old(store.quests) && store.processedEvents == old(store.processedEvents)
  {
    var i := FindPlayerQuest(store.playerQuests, playerId, questId);
    if i.None? {
      return false;
    }
    var pq := store.playerQuests[i.value];
    pq := pq.(progressCount := 0);
    pq := pq.(status := NotStarted);
    pq := pq.(updatedAt := now);
    store.UpdatePlayerQuestAt(i.value, pq);
    found := true;
  }

  /** No record of that player for that quest: false, nothing changes.
      Otherwise only the first such record changes: count 0, NotStarted,
      stamped `now`, with its ids and completion time kept, even when it was
      Completed or Claimed. */
  lemma ResetOutcome(pqs: seq<PlayerQuestRecord>, playerId: Guid, questId: Guid, now: DateTime)
    ensures ResetEffect(pqs, playerId, questId, now).0 <==>
      exists k | 0 <= k < |pqs| :: IsRecordOf(pqs[k], playerId, questId)
    ensures !ResetEffect(pqs, playerId, questId, now).0 ==> ResetEffect(pqs, playerId, questId, now).1 == pqs
    ensures var after := ResetEffect(pqs, playerId, questId, now).1;
      |after| == |pqs| &&
      forall k | 0 <= k < |pqs| ::
        if FindPlayerQuest(pqs, playerId, questId) == Some(k) then
          && after[k].id == pqs[k].id && after[k].playerId == playerId && after[k].questId == questId
          && after[k].progressCount == 0 && after[k].status == NotStarted
          && after[k].updatedAt == now && after[k].completedAt == pqs[k].completedAt
        else after[k] == pqs[k]
  {
  }

  /** Resetting twice at the same time is resetting once. */
  lemma ResetIsIdempotent(pqs: seq<PlayerQuestRecord>, playerId: Guid, questId: Guid, now: DateTime)
    ensures var once := ResetEffect(pqs, playerId, questId, now);
      ResetEffect(once.1, playerId, questId, now) == once
  {
    var once := ResetEffect(pqs, playerId, questId, now).1;
    FindPlayerQuestKeysOnly(pqs, once, playerId, questId);
    if FindPlayerQuest(pqs, playerId, questId).Some? {
      var i := FindPlayerQuest(pqs, playerId, questId).value;
      assert once[i := ResetRecord(once[i], now)] == once;
    }
  }

  /** A reset record counts again: where a Completed record ignored
      progress, the reset one takes the next amount as its whole count, and
      a single step reaching the target completes it anew. */
  lemma ResetRecordProgressesAgain(r: PlayerQuestRecord, now: DateTime, amount: Int32, targetCount: Int32, later: DateTime)
    requires r.status == Completed
    requires amount != 0
    ensures Progressed(r, amount, targetCount, later) == r
    ensures var p := Progressed(ResetRecord(r, now), amount, targetCount, later);
      && p.progressCount == amount
      && p != ResetRecord(r, now)
      && (amount >= targetCount ==> p.status == Completed && p.completedAt == Some(later))
  {
  }
}
