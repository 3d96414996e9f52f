/** The quest service's entities: quest definitions, the per-player progress
    record, and the progress state machine of `PlayerQuest.UpdateProgress`. */
module QuestDomain {
  import opened Common

  datatype QuestStatus = NotStarted | InProgress | Completed | Claimed {
    /** Completed and Claimed are terminal: progress never changes again. */
    predicate IsTerminal() { Completed? || Claimed? }
  }

  /** The default of `QuestDefinition.Type`, and the only type the
      dungeon-completion consumer reacts to. */
  const DUNGEON_COMPLETION: string := "DUNGEON_COMPLETION"

  datatype QuestDefinition = QuestDefinition(
    id: Guid,
    code: string,
    title: string,
    description: string,
    questType: string,
    targetCount: Int32,
    isActive: bool,
    startAt: Option<DateTime>,
    endAt: Option<DateTime>,
    reward: string)

  /** The stored form of a `PlayerQuest`. The `Quest` navigation property is
      not stored; the join that fills it returns it beside the record. */
  datatype PlayerQuestRecord = PlayerQuestRecord(
    id: Guid,
    playerId: Guid,
    questId: Guid,
    status: QuestStatus,
    progressCount: Int32,
    completedAt: Option<DateTime>,
    updatedAt: DateTime)

  /** A record as `new PlayerQuest { Id, PlayerId, QuestId }` builds it: the
      initializers give NotStarted, a zero count, no completion time and the
      current time as UpdatedAt. */
  function NewRecord(id: Guid, playerId: Guid, questId: Guid, now: DateTime): (r: PlayerQuestRecord)
    ensures r.id == id && r.playerId == playerId && r.questId == questId
    ensures r.status == NotStarted && r.progressCount == 0
    ensures r.completedAt == None && r.updatedAt == now
  {
    PlayerQuestRecord(id, playerId, questId, NotStarted, 0, None, now)
  }

  /** The effect of `UpdateProgress(amount, targetCount)` at time `now`. */
  function Progressed(r: PlayerQuestRecord, amount: Int32, targetCount: Int32, now: DateTime): PlayerQuestRecord
  {
    if r.status.IsTerminal() then r
    else
      var count := AddInt32(r.progressCount, amount);
      if count >= targetCount then
        r.(progressCount := count, updatedAt := now, status := Completed, completedAt := Some(now))
      else
        r.(progressCount := count, updatedAt := now, status := InProgress)
  }

  /** A terminal record is left exactly as it was. */
  lemma ProgressedTerminalIsNoop(r: PlayerQuestRecord, amount: Int32, targetCount: Int32, now: DateTime)
    requires r.status.IsTerminal()
    ensures Progressed(r, amount, targetCount, now) == r
  {
  }

  /** On a non-terminal record the count grows by exactly `amount` (when the
      sum fits in an Int32); the status becomes Completed, with CompletedAt
      set to the current time, iff the new count reaches the target, and
      InProgress otherwise, with CompletedAt untouched. Identity fields never
      change. */
  lemma ProgressedAdvances(r: PlayerQuestRecord, amount: Int32, targetCount: Int32, now: DateTime)
    requires !r.status.IsTerminal()
    requires INT32_MIN <= r.progressCount + amount <= INT32_MAX
    ensures var p := Progressed(r, amount, targetCount, now);
      && p.progressCount == r.progressCount + amount
      && p.updatedAt == now
      && (p.status == Completed <==> r.progressCount + amount >= targetCount)
      && (p.status != Completed ==> p.status == InProgress && p.completedAt == r.completedAt)
      && (p.status == Completed ==> p.completedAt == Some(now))
      && p.id == r.id && p.playerId == r.playerId && p.questId == r.questId
  {
  }

  /** The test scenario: a record at 2 of 3 receives one more completion and
      ends Completed at 3 with a completion time. */
  lemma TwoOfThreePlusOneCompletes(r: PlayerQuestRecord, now: DateTime)
    requires r.progressCount == 2 && r.status == InProgress
    ensures Progressed(r, 1, 3, now).status == Completed
    ensures Progressed(r, 1, 3, now).progressCount == 3
    ensures Progressed(r, 1, 3, now).completedAt == Some(now)
  {
  }

  /** One step of progress: the arguments of one `UpdateProgress` call. */
  datatype ProgressStep = ProgressStep(amount: Int32, targetCount: Int32, at: DateTime)

  /** The record after a sequence of `UpdateProgress` calls, in order. */
  function ProgressedBy(r: PlayerQuestRecord, steps: seq<ProgressStep>): PlayerQuestRecord
    decreases |steps|
  {
    if steps == [] then r
    else ProgressedBy(Progressed(r, steps[0].amount, steps[0].targetCount, steps[0].at), steps[1..])
  }

  /** The clamp: once a record is terminal, no sequence of further updates
      changes any of its fields. */
  lemma {:induction false} TerminalIsClamped(r: PlayerQuestRecord, steps: seq<ProgressStep>)
    requires r.status.IsTerminal()
    ensures ProgressedBy(r, steps) == r
    decreases |steps|
  {
    if steps != [] {
      ProgressedTerminalIsNoop(r, steps[0].amount, steps[0].targetCount, steps[0].at);
      TerminalIsClamped(r, steps[1..]);
    }
  }

  /** Once an update has completed a record, every later update sequence
      keeps its count, status and completion time. */
  lemma {:induction false} CompletionIsFinal(r: PlayerQuestRecord, first: ProgressStep, later: seq<ProgressStep>)
    requires Progressed(r, first.amount, first.targetCount, first.at).status == Completed
    ensures var done := Progressed(r, first.amount, first.targetCount, first.at);
      ProgressedBy(r, [first] + later) == done
  {
    var done := Progressed(r, first.amount, first.targetCount, first.at);
    assert ([first] + later)[1..] == later;
    TerminalIsClamped(done, later);
  }

  /** Non-negative progress that does not overflow never lowers the count. */
  lemma ProgressNeverDecreases(r: PlayerQuestRecord, amount: Int32, targetCount: Int32, now: DateTime)
    requires amount >= 0 && r.progressCount + amount <= INT32_MAX
    ensures Progressed(r, amount, targetCount, now).progressCount >= r.progressCount
  {
  }

  /** Over any sequence of non-negative steps none of which overflows, the
      count is non-decreasing. */
  lemma {:induction false} ProgressByNeverDecreases(r: PlayerQuestRecord, steps: seq<ProgressStep>)
    requires forall i | 0 <= i < |steps| :: steps[i].amount >= 0
    requires forall i | 0 <= i < |steps| :: ProgressedBy(r, steps[..i]).progressCount + steps[i].amount <= INT32_MAX
    ensures ProgressedBy(r, steps).progressCount >= r.progressCount
    decreases |steps|
  {
    if steps != [] {
      var s := steps[0];
      var r' := Progressed(r, s.amount, s.targetCount, s.at);
      assert steps[..0] == [];
      ProgressNeverDecreases(r, s.amount, s.targetCount, s.at);
      forall i | 0 <= i < |steps[1..]|
        ensures ProgressedBy(r', steps[1..][..i]).progressCount + steps[1..][i].amount <= INT32_MAX
      {
        assert steps[..i + 1] == [s] + steps[1..][..i];
        assert ProgressedBy(r, steps[..i + 1]) == ProgressedBy(r', steps[1..][..i]);
      }
      ProgressByNeverDecreases(r', steps[1..]);
    }
  }

  /** The count is a C# `int`: at Int32.MaxValue one more unit wraps it to
      Int32.MinValue, and a record whose target is not that low stays
      InProgress with a negative count. */
  lemma ProgressWrapsAtInt32Max(r: PlayerQuestRecord, targetCount: Int32, now: DateTime)
    requires r.status == InProgress && r.progressCount == INT32_MAX
    requires targetCount > INT32_MIN
    ensures Progressed(r, 1, targetCount, now).progressCount == INT32_MIN
    ensures Progressed(r, 1, targetCount, now).status == InProgress
  {
  }

  /** `PlayerQuest`: the entity object whose `UpdateProgress` changes its own
      fields in place. */
  class PlayerQuest {
    var id: Guid
    var playerId: Guid
    var questId: Guid
    var status: QuestStatus
    var progressCount: Int32
    var completedAt: Option<DateTime>
    var updatedAt: DateTime

    /** The object's fields as a stored record. */
    function Record(): PlayerQuestRecord
      reads this
    {
      PlayerQuestRecord(id, playerId, questId, status, progressCount, completedAt, updatedAt)
    }

    /** `new PlayerQuest { Id, PlayerId, QuestId, Status = NotStarted,
        ProgressCount = 0 }`: a fresh entity starts NotStarted. */
    constructor (id: Guid, playerId: Guid, questId: Guid, now: DateTime)
      ensures Record() == NewRecord(id, playerId, questId, now)
      ensures status == NotStarted
    {
      this.id := id;
      this.playerId := playerId;
      this.questId := questId;
      status := NotStarted;
      progressCount := 0;
      completedAt := None;
      updatedAt := now;
    }

    /** An entity materialised from a stored record. */
    constructor Load(r: PlayerQuestRecord)
      ensures Record() == r
    {
      id, playerId, questId := r.id, r.playerId, r.questId;
      status, progressCount := r.status, r.progressCount;
      completedAt, updatedAt := r.completedAt, r.updatedAt;
    }

    method UpdateProgress(amount: Int32, targetCount: Int32, now: DateTime)
      modifies this
      ensures Record() == Progressed(old(Record()), amount, targetCount, now)
      ensures old(status).IsTerminal() ==> Record() == old(Record())
    {
      if status == Completed || status == Claimed {
        return;
      }
      progressCount := AddInt32(progressCount, amount);
      updatedAt := now;
      if progressCount >= targetCount {
        status := Completed;
        completedAt := Some(now);
      } else {
        status := InProgress;
      }
    }
  }
}
