/** `DungeonCompletedHandler`: the idempotent consumer of dungeon-completion
    events. A ledger of processed event ids guards against duplicate
    deliveries; an unseen event advances the player's progress on every
    active dungeon-completion quest, and only then is its id recorded. */
module DungeonCompleted {
  import opened Common
  import opened QuestDomain
  import opened QuestStore

  /** The bus message: the event's unique id and the player who finished. */
  datatype DungeonCompleted = DungeonCompleted(eventId: Guid, playerId: Guid)

  /** `q.IsActive && q.Type == "DUNGEON_COMPLETION"`. */
  predicate IsDungeonQuest(q: QuestDefinition) {
    q.isActive && q.questType == DUNGEON_COMPLETION
  }

  /** The quests the event applies to, in store order. */
  function DungeonQuests(qs: seq<QuestDefinition>): (r: seq<QuestDefinition>)
    ensures |r| <= |qs|
    ensures forall q :: q in r <==> q in qs && IsDungeonQuest(q)
    decreases |qs|
  {
    if qs == [] then []
    else (if IsDungeonQuest(qs[0]) then [qs[0]] else []) + DungeonQuests(qs[1..])
  }

  /** Filtering keeps the quest ids distinct. */
  lemma {:induction false} DungeonQuestsDistinct(qs: seq<QuestDefinition>)
    requires DistinctQuestIds(qs)
    ensures DistinctQuestIds(DungeonQuests(qs))
    decreases |qs|
  {
    if qs != [] {
      var rest := qs[1..];
      assert DistinctQuestIds(rest) by {
        forall i, j | 0 <= i < j < |rest| ensures rest[i].id != rest[j].id {
          assert rest[i] == qs[i + 1] && rest[j] == qs[j + 1];
        }
      }
      DungeonQuestsDistinct(rest);
      var tail := DungeonQuests(rest);
      if IsDungeonQuest(qs[0]) {
        var r := [qs[0]] + tail;
        forall k | 0 <= k < |tail| ensures tail[k].id != qs[0].id {
          assert tail[k] in rest;
          var m :| 0 <= m < |rest| && rest[m] == tail[k];
          assert rest[m] == qs[m + 1];
        }
        forall i, j | 0 <= i < j < |r| ensures r[i].id != r[j].id {
          if i == 0 {
            assert r[j] == tail[j - 1];
          } else {
            assert r[i] == tail[i - 1] && r[j] == tail[j - 1];
          }
        }
      } else {
        assert DungeonQuests(qs) == tail;
      }
    }
  }

  /** The record the update starts from for quest `q`: the player's existing
      record if there is one, otherwise a new one with id `newId`. */
  function StartingRecord(pqs: seq<PlayerQuestRecord>, playerId: Guid, q: QuestDefinition,
                          now: DateTime, newId: Guid): (r: PlayerQuestRecord)
    ensures IsRecordOf(r, playerId, q.id)
  {
    match FindPlayerQuest(pqs, playerId, q.id)
    case Some(i) => pqs[i]
    case None => NewRecord(newId, playerId, q.id, now)
  }

  /** One iteration of the loop: find or create the player's record for `q`
      and apply `UpdateProgress(1, q.TargetCount)` to it. */
  function TrackQuest(pqs: seq<PlayerQuestRecord>, playerId: Guid, q: QuestDefinition,
                      now: DateTime, newId: Guid): seq<PlayerQuestRecord>
  {
    var p := Progressed(StartingRecord(pqs, playerId, q, now, newId), 1, q.targetCount, now);
    match FindPlayerQuest(pqs, playerId, q.id)
    case Some(i) => pqs[i := p]
    case None => pqs + [p]
  }

  /** The loop over the quests `qs`, in order; the quest at position `k`,
      if it needs a new record, gives it the id `newIds[k]`. */
  function TrackAll(pqs: seq<PlayerQuestRecord>, playerId: Guid, qs: seq<QuestDefinition>,
                    now: DateTime, newIds: seq<Guid>): seq<PlayerQuestRecord>
    requires |qs| <= |newIds|
    decreases |qs|
  {
    if qs == [] then pqs
    else
      var n := |qs| - 1;
      TrackQuest(TrackAll(pqs, playerId, qs[..n], now, newIds), playerId, qs[n], now, newIds[n])
  }

  /** The whole handler on the store's contents. */
  function HandleSpec(s: QuestState, m: DungeonCompleted, now: DateTime, newIds: seq<Guid>): QuestState
    requires |DungeonQuests(s.quests)| <= |newIds|
  {
    if m.eventId in s.processedEvents then s
    else
      var active := DungeonQuests(s.quests);
      if |active| == 0 then s
      else s.(playerQuests := TrackAll(s.playerQuests, m.playerId, active, now, newIds),
              processedEvents := s.processedEvents + [m.eventId])
  }

  // -----------------------------------------------------------------------
  // The handler
  // -----------------------------------------------------------------------

  /** `Handle(DungeonCompleted)`. `newIds` supplies the ids that
      `Guid.NewGuid()` would produce for records created on the way (one per
      matching quest), and `now` the clock. The source looks each record up
      in the player's records as loaded before the loop; this loop looks it
      up in the live store instead. The two agree because the dungeon
      quests have distinct ids (`DungeonQuestsDistinct`): a record created
      or updated for one quest of the loop is never the one found for a
      later quest, so every lookup sees what was loaded. */
  method Handle(store: QuestStore, m: DungeonCompleted, now: DateTime, newIds: seq<Guid>)
    requires store.Valid()
    requires |DungeonQuests(store.quests)| <= |newIds|
    modifies store
    ensures store.Valid()
    ensures store.State() == HandleSpec(old(store.State()), m, now, newIds)
  {
    // 1. Idempotence: skip an event whose id is in the ledger.
    var alreadyProcessed := m.eventId in store.processedEvents;
    if alreadyProcessed {
      return;
    }

    // 2. The active dungeon-completion quests.
    var activeQuests := DungeonQuests(store.quests);
    if |activeQuests| == 0 {
      return;
    }

    // 3. Progress on every matching quest.
    ghost var start := store.playerQuests;
    var k := 0;
    while k < |activeQuests|
      invariant 0 <= k <= |activeQuests|
      invariant store.quests == old(store.quests)
      invariant store.processedEvents == old(store.processedEvents)
      invariant store.playerQuests == TrackAll(start, m.playerId, activeQuests[..k], now, newIds)
    {
      var quest := activeQuests[k];
      ghost var before := store.playerQuests;
      TrackAllStep(start, m.playerId, activeQuests, now, newIds, k);
      var found := FindPlayerQuest(store.playerQuests, m.playerId, quest.id);
      var pq: PlayerQuest;
      var position: nat;
      if found.None? {
        pq := new PlayerQuest(newIds[k], m.playerId, quest.id, now);
        position := |store.playerQuests|;
        store.AddPlayerQuest(pq.Record());
      } else {
        position := found.value;
        pq := new PlayerQuest.Load(store.playerQuests[position]);
      }
      assert pq.Record() == StartingRecord(before, m.playerId, quest, now, newIds[k]);
      pq.UpdateProgress(1, quest.targetCount, now);
      store.UpdatePlayerQuestAt(position, pq.Record());
      assert store.playerQuests == TrackQuest(before, m.playerId, quest, now, newIds[k]);
      k := k + 1;
    }
    assert activeQuests[..k] == activeQuests;

    // 4. Only now is the event marked as processed.
    store.AddProcessedEvent(m.eventId);
  }

  // -----------------------------------------------------------------------
  // What the handler guarantees
  // -----------------------------------------------------------------------

  /** A duplicate delivery changes nothing: no record and no ledger entry. */
  lemma DuplicateIsNoop(s: QuestState, m: DungeonCompleted, now: DateTime, newIds: seq<Guid>)
    requires |DungeonQuests(s.quests)| <= |newIds|
    requires m.eventId in s.processedEvents
    ensures HandleSpec(s, m, now, newIds) == s
  {
  }

  /** With no active dungeon-completion quest the handler returns early and
      the event id is NOT recorded. */
  lemma NoMatchingQuestRecordsNothing(s: QuestState, m: DungeonCompleted, now: DateTime, newIds: seq<Guid>)
    requires |DungeonQuests(s.quests)| <= |newIds|
    requires forall q | q in s.quests :: !IsDungeonQuest(q)
    ensures HandleSpec(s, m, now, newIds) == s
  {
    NoDungeonQuests(s.quests);
  }

  lemma {:induction false} NoDungeonQuests(qs: seq<QuestDefinition>)
    requires forall q | q in qs :: !IsDungeonQuest(q)
    ensures DungeonQuests(qs) == []
    decreases |qs|
  {
    if qs != [] {
      assert qs[0] in qs;
      NoDungeonQuests(qs[1..]);
    }
  }

  /** When some quest matches, an unseen event ends up in the ledger exactly
      once, appended after the updates, and the quest table is untouched. */
  lemma MatchRecordsEvent(s: QuestState, m: DungeonCompleted, now: DateTime, newIds: seq<Guid>, q: QuestDefinition)
    requires |DungeonQuests(s.quests)| <= |newIds|
    requires m.eventId !in s.processedEvents
    requires q in s.quests && IsDungeonQuest(q)
    ensures HandleSpec(s, m, now, newIds).processedEvents == s.processedEvents + [m.eventId]
    ensures HandleSpec(s, m, now, newIds).quests == s.quests
  {
    assert q in DungeonQuests(s.quests);
  }

  /** Handling the same event twice in a row gives the state of handling it
      once. */
  lemma HandleTwiceIsHandleOnce(s: QuestState, m: DungeonCompleted, now: DateTime, later: DateTime,
                                newIds: seq<Guid>, moreIds: seq<Guid>)
    requires |DungeonQuests(s.quests)| <= |newIds|
    requires |DungeonQuests(s.quests)| <= |moreIds|
    ensures var once := HandleSpec(s, m, now, newIds);
      HandleSpec(once, m, later, moreIds) == once
  {
  }

  /** The last quest of a list with distinct ids has an id that no earlier
      quest has. */
  lemma LastQuestIdIsFresh(qs: seq<QuestDefinition>)
    requires DistinctQuestIds(qs) && |qs| > 0
    ensures qs[|qs| - 1].id !in QuestIds(qs[..|qs| - 1])
  {
    var n := |qs| - 1;
    forall y | y in qs[..n] ensures y.id != qs[n].id {
      var m :| 0 <= m < n && qs[..n][m] == y;
      assert qs[m] == y;
    }
  }

  /** Extending a list with records that do not match leaves the
      first-match index. */
  lemma {:induction false} FindPlayerQuestOfExtension(a: seq<PlayerQuestRecord>, b: seq<PlayerQuestRecord>, playerId: Guid, questId: Guid)
    requires |a| <= |b| && b[..|a|] == a
    requires forall i | |a| <= i < |b| :: !IsRecordOf(b[i], playerId, questId)
    ensures FindPlayerQuest(b, playerId, questId) == FindPlayerQuest(a, playerId, questId)
    decreases |b| - |a|
  {
    if |a| < |b| {
      var a' := b[..|a| + 1];
      assert a' == a + [b[|a|]];
      FindPlayerQuestAppend(a, b[|a|], playerId, questId);
      FindPlayerQuestOfExtension(a', b, playerId, questId);
    }
  }

  /** The loop's step: one more quest processed is one more `TrackQuest`. */
  lemma TrackAllStep(pqs: seq<PlayerQuestRecord>, playerId: Guid, qs: seq<QuestDefinition>,
                     now: DateTime, newIds: seq<Guid>, k: nat)
    requires k < |qs| <= |newIds|
    ensures TrackAll(pqs, playerId, qs[..k + 1], now, newIds) ==
            TrackQuest(TrackAll(pqs, playerId, qs[..k], now, newIds), playerId, qs[k], now, newIds[k])
  {
    assert qs[..k + 1][..k] == qs[..k];
  }

  /** The frame of the loop: every record keeps its ids and position; a
      record of another player, or for a quest not in `qs`, is unchanged;
      every record added belongs to the player and to a quest of `qs`. */
  lemma {:induction false} TrackAllFrame(pqs: seq<PlayerQuestRecord>, playerId: Guid, qs: seq<QuestDefinition>,
                                         now: DateTime, newIds: seq<Guid>)
    requires |qs| <= |newIds|
    ensures var r := TrackAll(pqs, playerId, qs, now, newIds);
      && |pqs| <= |r|
      && (forall i | 0 <= i < |pqs| :: r[i].id == pqs[i].id && r[i].playerId == pqs[i].playerId && r[i].questId == pqs[i].questId)
      && (forall i | 0 <= i < |pqs| && (pqs[i].playerId != playerId || pqs[i].questId !in QuestIds(qs)) :: r[i] == pqs[i])
      && (forall i | |pqs| <= i < |r| :: r[i].playerId == playerId && r[i].questId in QuestIds(qs))
    decreases |qs|
  {
    if qs != [] {
      var n := |qs| - 1;
      var q := qs[n];
      TrackAllFrame(pqs, playerId, qs[..n], now, newIds);
      var s := TrackAll(pqs, playerId, qs[..n], now, newIds);
      assert QuestIds(qs[..n]) <= QuestIds(qs) by {
        forall x | x in QuestIds(qs[..n]) ensures x in QuestIds(qs) {
          var y :| y in qs[..n] && y.id == x;
          assert y in qs;
        }
      }
      assert q in qs;
      var p := Progressed(StartingRecord(s, playerId, q, now, newIds[n]), 1, q.targetCount, now);
      assert TrackAll(pqs, playerId, qs, now, newIds) == TrackQuest(s, playerId, q, now, newIds[n]);
      match FindPlayerQuest(s, playerId, q.id)
      case Some(j) =>
        assert TrackQuest(s, playerId, q, now, newIds[n]) == s[j := p];
      case None =>
        assert TrackQuest(s, playerId, q, now, newIds[n]) == s + [p];
    }
  }

  /** A quest that is not processed by the loop keeps its first-match index,
      and the record found there is unchanged. */
  lemma {:induction false} TrackAllLeavesOtherQuest(pqs: seq<PlayerQuestRecord>, playerId: Guid, qs: seq<QuestDefinition>,
                                                    now: DateTime, newIds: seq<Guid>, questId: Guid)
    requires |qs| <= |newIds|
    requires questId !in QuestIds(qs)
    ensures var r := TrackAll(pqs, playerId, qs, now, newIds);
      && FindPlayerQuest(r, playerId, questId) == FindPlayerQuest(pqs, playerId, questId)
      && (FindPlayerQuest(pqs, playerId, questId).Some? ==>
            r[FindPlayerQuest(pqs, playerId, questId).value] == pqs[FindPlayerQuest(pqs, playerId, questId).value])
  {
    TrackAllFrame(pqs, playerId, qs, now, newIds);
    var r := TrackAll(pqs, playerId, qs, now, newIds);
    var fp := FindPlayerQuest(pqs, playerId, questId);
    var fr := FindPlayerQuest(r, playerId, questId);
    // The records added by the loop are for quests of `qs`, so the search
    // for `questId` only ever meets the old records, whose keys are kept.
    var prefix := r[..|pqs|];
    forall i | |pqs| <= i < |r| ensures !IsRecordOf(r[i], playerId, questId) {
      assert r[i].questId in QuestIds(qs);
    }
    FindPlayerQuestKeysOnly(prefix, pqs, playerId, questId);
    FindPlayerQuestOfExtension(prefix, r, playerId, questId);
  }

  /** The heart of the consumer: for each quest of `qs`, the player's record
      afterwards is `UpdateProgress(1, TargetCount)` applied to the record
      the player had (found at the same position), or to a new NotStarted
      record with zero progress when the player had none. */
  lemma {:induction false} TrackAllOutcome(pqs: seq<PlayerQuestRecord>, playerId: Guid, qs: seq<QuestDefinition>,
                                           now: DateTime, newIds: seq<Guid>, j: nat)
    requires |qs| <= |newIds|
    requires DistinctQuestIds(qs)
    requires j < |qs|
    ensures var r := TrackAll(pqs, playerId, qs, now, newIds);
      var found := FindPlayerQuest(r, playerId, qs[j].id);
      && found.Some?
      && r[found.value] == Progressed(StartingRecord(pqs, playerId, qs[j], now, newIds[j]), 1, qs[j].targetCount, now)
      && (FindPlayerQuest(pqs, playerId, qs[j].id).Some? ==> found == FindPlayerQuest(pqs, playerId, qs[j].id))
    decreases |qs|
  {
    var n := |qs| - 1;
    var prefix := qs[..n];
    var q := qs[n];
    var s := TrackAll(pqs, playerId, prefix, now, newIds);
    var p := Progressed(StartingRecord(s, playerId, q, now, newIds[n]), 1, q.targetCount, now);
    var r := TrackQuest(s, playerId, q, now, newIds[n]);
    assert TrackAll(pqs, playerId, qs, now, newIds) == r;
    assert DistinctQuestIds(prefix);
    ghost var fs := FindPlayerQuest(s, playerId, q.id);
    // In both branches of TrackQuest the keys of the old records survive.
    if fs.Some? {
      assert r == s[fs.value := p];
      FindPlayerQuestKeysOnly(r, s, playerId, qs[j].id);
    } else {
      assert r == s + [p];
      FindPlayerQuestAppend(s, p, playerId, qs[j].id);
    }
    if j < n {
      // An earlier quest: its record, settled by the prefix, is not the one
      // this iteration touches.
      assert prefix[j] == qs[j];
      TrackAllOutcome(pqs, playerId, prefix, now, newIds, j);
      assert qs[j].id != q.id;
      var i := FindPlayerQuest(s, playerId, qs[j].id).value;
      assert fs.Some? ==> fs.value != i;
      assert r[i] == s[i];
    } else {
      // The last quest: the prefix did not touch its record.
      LastQuestIdIsFresh(qs);
      TrackAllLeavesOtherQuest(pqs, playerId, prefix, now, newIds, q.id);
      assert StartingRecord(s, playerId, q, now, newIds[n]) == StartingRecord(pqs, playerId, q, now, newIds[n]);
    }
  }

  /** At most one record is created per quest and event: the records added
      have pairwise distinct quest ids, and each one is for a quest the
      player had no record of. */
  lemma {:induction false} TrackAllCreatesAtMostOne(pqs: seq<PlayerQuestRecord>, playerId: Guid, qs: seq<QuestDefinition>,
                                                    now: DateTime, newIds: seq<Guid>)
    requires |qs| <= |newIds|
    requires DistinctQuestIds(qs)
    ensures var r := TrackAll(pqs, playerId, qs, now, newIds);
      && (forall i | |pqs| <= i < |r| :: FindPlayerQuest(pqs, playerId, r[i].questId).None?)
      && (forall i, k | |pqs| <= i < k < |r| :: r[i].questId != r[k].questId)
    decreases |qs|
  {
    if qs != [] {
      var n := |qs| - 1;
      var prefix := qs[..n];
      var q := qs[n];
      assert DistinctQuestIds(prefix);
      TrackAllCreatesAtMostOne(pqs, playerId, prefix, now, newIds);
      TrackAllFrame(pqs, playerId, prefix, now, newIds);
      var s := TrackAll(pqs, playerId, prefix, now, newIds);
      var p := Progressed(StartingRecord(s, playerId, q, now, newIds[n]), 1, q.targetCount, now);
      var r := TrackQuest(s, playerId, q, now, newIds[n]);
      assert TrackAll(pqs, playerId, qs, now, newIds) == r;
      match FindPlayerQuest(s, playerId, q.id)
      case Some(j) =>
        assert r == s[j := p];
        assert j < |pqs| ==> r[j].questId == s[j].questId;
      case None =>
        assert r == s + [p];
        LastQuestIdIsFresh(qs);
        TrackAllLeavesOtherQuest(pqs, playerId, prefix, now, newIds, q.id);
        forall i | |pqs| <= i < |s| ensures s[i].questId != p.questId {
          assert IsRecordOf(s[i], playerId, s[i].questId);
          assert !IsRecordOf(s[i], playerId, q.id);
        }
    }
  }

  /** The handler's effect on the records, for an event that is processed:
      each matching quest's record is advanced by one, every record of
      another player or for another quest is unchanged, and records are
      only ever added for this player and a matching quest. */
  lemma HandleUpdatesExactlyMatchingRecords(s: QuestState, m: DungeonCompleted, now: DateTime, newIds: seq<Guid>)
    requires DistinctQuestIds(s.quests)
    requires |DungeonQuests(s.quests)| <= |newIds|
    requires m.eventId !in s.processedEvents
    ensures var active := DungeonQuests(s.quests);
      var r := HandleSpec(s, m, now, newIds).playerQuests;
      && (forall j | 0 <= j < |active| ::
            FindPlayerQuest(r, m.playerId, active[j].id).Some? &&
            r[FindPlayerQuest(r, m.playerId, active[j].id).value] ==
              Progressed(StartingRecord(s.playerQuests, m.playerId, active[j], now, newIds[j]), 1, active[j].targetCount, now))
      && |s.playerQuests| <= |r|
      && (forall i | 0 <= i < |s.playerQuests| && (s.playerQuests[i].playerId != m.playerId || s.playerQuests[i].questId !in QuestIds(active)) ::
            r[i] == s.playerQuests[i])
      && (forall i | |s.playerQuests| <= i < |r| :: r[i].playerId == m.playerId && r[i].questId in QuestIds(active))
  {
    var active := DungeonQuests(s.quests);
    if |active| > 0 {
      DungeonQuestsDistinct(s.quests);
      TrackAllFrame(s.playerQuests, m.playerId, active, now, newIds);
      forall j | 0 <= j < |active|
        ensures var r := TrackAll(s.playerQuests, m.playerId, active, now, newIds);
          FindPlayerQuest(r, m.playerId, active[j].id).Some? &&
          r[FindPlayerQuest(r, m.playerId, active[j].id).value] ==
            Progressed(StartingRecord(s.playerQuests, m.playerId, active[j], now, newIds[j]), 1, active[j].targetCount, now)
      {
        TrackAllOutcome(s.playerQuests, m.playerId, active, now, newIds, j);
      }
    }
  }

  /** The clamp, seen through the consumer: a record already Completed (or
      Claimed) is found again at its place with every field unchanged. */
  lemma CompletedRecordIsClamped(s: QuestState, m: DungeonCompleted, now: DateTime, newIds: seq<Guid>, q: QuestDefinition)
    requires DistinctQuestIds(s.quests)
    requires |DungeonQuests(s.quests)| <= |newIds|
    requires FindPlayerQuest(s.playerQuests, m.playerId, q.id).Some?
    requires s.playerQuests[FindPlayerQuest(s.playerQuests, m.playerId, q.id).value].status.IsTerminal()
    ensures var i := FindPlayerQuest(s.playerQuests, m.playerId, q.id).value;
      var r := HandleSpec(s, m, now, newIds).playerQuests;
      i < |r| && r[i] == s.playerQuests[i]
  {
    var i := FindPlayerQuest(s.playerQuests, m.playerId, q.id).value;
    var active := DungeonQuests(s.quests);
    if m.eventId !in s.processedEvents && |active| > 0 {
      DungeonQuestsDistinct(s.quests);
      TrackAllFrame(s.playerQuests, m.playerId, active, now, newIds);
      if q.id in QuestIds(active) {
        var y :| y in active && y.id == q.id;
        var j :| 0 <= j < |active| && active[j] == y;
        TrackAllOutcome(s.playerQuests, m.playerId, active, now, newIds, j);
        ProgressedTerminalIsNoop(s.playerQuests[i], 1, y.targetCount, now);
      }
    }
  }

  /** Scenario: a quest with target 3 and a player at 2, InProgress; one
      unseen completion event completes the quest at 3 with a time stamp. */
  lemma TwoOfThreeCompletesOnEvent(s: QuestState, m: DungeonCompleted, now: DateTime, newIds: seq<Guid>, j: nat)
    requires DistinctQuestIds(s.quests)
    requires |DungeonQuests(s.quests)| <= |newIds|
    requires m.eventId !in s.processedEvents
    requires j < |DungeonQuests(s.quests)| && DungeonQuests(s.quests)[j].targetCount == 3
    requires var q := DungeonQuests(s.quests)[j];
      FindPlayerQuest(s.playerQuests, m.playerId, q.id).Some? &&
      s.playerQuests[FindPlayerQuest(s.playerQuests, m.playerId, q.id).value].progressCount == 2 &&
      s.playerQuests[FindPlayerQuest(s.playerQuests, m.playerId, q.id).value].status == InProgress
    ensures var q := DungeonQuests(s.quests)[j];
      var r := HandleSpec(s, m, now, newIds).playerQuests;
      var i := FindPlayerQuest(s.playerQuests, m.playerId, q.id).value;
      i < |r| && r[i].progressCount == 3 && r[i].status == Completed && r[i].completedAt == Some(now)
  {
    var active := DungeonQuests(s.quests);
    DungeonQuestsDistinct(s.quests);
    TrackAllOutcome(s.playerQuests, m.playerId, active, now, newIds, j);
  }
}
