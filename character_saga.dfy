/** `CreateCharacterSaga`: the distributed transaction that follows a
    character's creation. An instance, keyed by the character id, is opened
    by `CreateCharacterEvent`; `CharacterCreationConfirmed` closes it
    successfully and `CharacterCreationFailed` closes it after deleting the
    character again (the compensation). The saga storage of the message bus
    is modelled explicitly: a map from correlation key to open saga data. */
module CharacterSaga {
  import opened Common
  import opened Messages
  import opened GameEntities

  /** `CreateCharacterSagaData` without the bus's own `Id` and `Revision`. */
  datatype SagaData = SagaData(
    characterId: string,
    characterName: string,
    userId: Option<string>,
    isCompleted: bool,
    isFailed: bool,
    failureReason: Option<string>,
    createdAt: DateTime)

  /** `new CreateCharacterSagaData()`: every string empty, both flags down,
      no failure reason, and the construction time as CreatedAt. */
  function NewSagaData(now: DateTime): (d: SagaData)
    ensures d.characterId == "" && d.characterName == "" && d.userId == Some("")
    ensures !d.isCompleted && !d.isFailed && d.failureReason == None
    ensures d.createdAt == now
  {
    SagaData("", "", Some(""), false, false, None, now)
  }

  /** `CorrelateMessages`: every message type is correlated by its
      CharacterId with the data's CharacterId. */
  function CorrelationKey(m: SagaMessage): string {
    match m
    case Created(e) => e.characterId
    case Confirmed(c) => c.characterId
    case Failed(f) => f.characterId
  }

  /** `IAmInitiatedBy<CreateCharacterEvent>`: the only message type that may
      open a new instance. */
  predicate Initiates(m: SagaMessage) {
    m.Created?
  }

  /** An instance still waiting for the remote decision. */
  predicate IsOpen(d: SagaData) {
    !d.isCompleted && !d.isFailed
  }

  /** The saga storage's invariant: each instance is stored under its own
      CharacterId and is still open (a decided instance is deleted). */
  predicate ValidInstances(instances: map<string, SagaData>) {
    forall k | k in instances :: instances[k].characterId == k && IsOpen(instances[k])
  }

  // -----------------------------------------------------------------------
  // Compensation
  // -----------------------------------------------------------------------

  /** Where the character store throws during compensation: on the lookup,
      on the delete, or not at all. */
  datatype StoreFault = NoFault | ReadFails | DeleteFails

  datatype CompensationOutcome = Deleted | AlreadyMissing | CriticalFailure

  /** `CompensateCharacterCreation(id)` on the store's contents: the
      character is deleted if present; any exception is caught and logged,
      so a failing store leaves the character in place. */
  function Compensation(chars: map<string, Character>, id: string, fault: StoreFault)
    : (r: (map<string, Character>, CompensationOutcome))
  {
    if fault == ReadFails then (chars, CriticalFailure)
    else if id !in chars then (chars, AlreadyMissing)
    else if fault == DeleteFails then (chars, CriticalFailure)
    else (chars - {id}, Deleted)
  }

  /** What compensation does to the character store: only the record keyed
      by `id` can disappear, it does so exactly when the store does not
      throw, and no error escapes (the outcome is always a value). */
  lemma CompensationEffect(chars: map<string, Character>, id: string, fault: StoreFault)
    ensures var (after, outcome) := Compensation(chars, id, fault);
      && (fault == NoFault ==> after == chars - {id})
      && (fault != NoFault ==> after == chars)
      && (forall k | k != id :: (k in after <==> k in chars) && (k in after ==> after[k] == chars[k]))
      && (outcome == Deleted <==> fault == NoFault && id in chars)
      && (outcome == AlreadyMissing <==> fault != ReadFails && id !in chars)
      && (outcome == CriticalFailure <==> fault == ReadFails || (fault == DeleteFails && id in chars))
  {
  }

  // -----------------------------------------------------------------------
  // One saga object, as the bus instantiates it for one message
  // -----------------------------------------------------------------------

  class CreateCharacterSaga {
    /** `Data`: the instance's state, loaded or freshly created. */
    var data: SagaData
    /** Set by `MarkAsComplete()`: the bus deletes the instance afterwards. */
    var markedComplete: bool
    /** The unit of work's character repository. */
    const characters: CharacterStore

    constructor (data: SagaData, characters: CharacterStore)
      ensures this.data == data && !markedComplete && this.characters == characters
    {
      this.data := data;
      markedComplete := false;
      this.characters := characters;
    }

    method MarkAsComplete()
      modifies this
      ensures markedComplete && data == old(data)
    {
      markedComplete := true;
    }

    /** `Handle(CreateCharacterEvent)`: records CharacterId, UserId and the
        current time; the instance stays open. */
    method HandleCreated(m: CreateCharacterEvent, now: DateTime)
      modifies this
      ensures data == old(data).(characterId := m.characterId, userId := m.userId, createdAt := now)
      ensures markedComplete == old(markedComplete)
    {
      data := data.(characterId := m.characterId);
      data := data.(userId := m.userId);
      data := data.(createdAt := now);
    }

    /** `Handle(CharacterCreationConfirmed)`: IsCompleted, then complete;
        the character store is not touched. */
    method HandleConfirmed(m: CharacterCreationConfirmed)
      modifies this
      ensures data == old(data).(isCompleted := true)
      ensures markedComplete
    {
      data := data.(isCompleted := true);
      MarkAsComplete();
    }

    /** `Handle(CharacterCreationFailed)`: IsFailed and FailureReason, the
        compensation, then complete. */
    method HandleFailed(m: CharacterCreationFailed, fault: StoreFault) returns (outcome: CompensationOutcome)
      modifies this, characters
      ensures data == old(data).(isFailed := true, failureReason := Some(m.reason))
      ensures markedComplete
      ensures (characters.characters, outcome) == Compensation(old(characters.characters), m.characterId, fault)
    {
      data := data.(isFailed := true);
      data := data.(failureReason := Some(m.reason));
      outcome := CompensateCharacterCreation(m.characterId, fault);
      MarkAsComplete();
    }

    /** `CompensateCharacterCreation`: look the character up, delete it if
        present; an exception from either call is caught. */
    method CompensateCharacterCreation(id: string, fault: StoreFault) returns (outcome: CompensationOutcome)
      modifies characters
      ensures (characters.characters, outcome) == Compensation(old(characters.characters), id, fault)
    {
      if fault == ReadFails {
        // GetByIdAsync threw: logged as a critical failure, swallowed.
        return CriticalFailure;
      }
      var found := id in characters.characters;
      if found {
        if fault == DeleteFails {
          // RemoveAsync threw: logged as a critical failure, swallowed.
          return CriticalFailure;
        }
        characters.Remove(id);
        outcome := Deleted;
      } else {
        outcome := AlreadyMissing;
      }
    }
  }

  // -----------------------------------------------------------------------
  // The bus's saga dispatch
  // -----------------------------------------------------------------------

  /** What became of the instance a message was correlated with. */
  datatype Disposition =
    | Ignored              // no instance, and the message cannot open one
    | Saved(data: SagaData) // the instance is stored (inserted or updated)
    | Closed(data: SagaData) // MarkAsComplete: the final data, then deleted

  datatype Step = Step(instances: map<string, SagaData>, characters: map<string, Character>, disposition: Disposition)

  /** The data after one message's handler, from the data it started on. */
  function Handled(d: SagaData, m: SagaMessage, now: DateTime): SagaData {
    match m
    case Created(e) => d.(characterId := e.characterId, userId := e.userId, createdAt := now)
    case Confirmed(_) => d.(isCompleted := true)
    case Failed(f) => d.(isFailed := true, failureReason := Some(f.reason))
  }

  /** One delivery: find the instance by correlation key, or create one if
      the message initiates the saga, or else drop the message; run the
      handler; then delete the instance if it was marked complete and store
      it otherwise. */
  function Deliver(instances: map<string, SagaData>, chars: map<string, Character>,
                   m: SagaMessage, now: DateTime, fault: StoreFault): Step
  {
    var key := CorrelationKey(m);
    if key !in instances && !Initiates(m) then Step(instances, chars, Ignored)
    else
      var start := if key in instances then instances[key] else NewSagaData(now);
      var d := Handled(start, m, now);
      match m
      case Created(_) => Step(instances[key := d], chars, Saved(d))
      case Confirmed(_) => Step(instances - {key}, chars, Closed(d))
      case Failed(f) => Step(instances - {key}, Compensation(chars, f.characterId, fault).0, Closed(d))
  }

  /** The bus's saga storage for this saga type. */
  class SagaStorage {
    var instances: map<string, SagaData>

    ghost predicate Valid()
      reads this
    {
      ValidInstances(instances)
    }

    constructor ()
      ensures Valid() && instances == map[]
    {
      instances := map[];
    }

    /** Dispatch of one message to the saga. */
    method Dispatch(m: SagaMessage, now: DateTime, store: CharacterStore, fault: StoreFault)
      returns (disposition: Disposition)
      requires Valid()
      modifies this, store
      ensures Valid()
      ensures Step(instances, store.characters, disposition) ==
              Deliver(old(instances), old(store.characters), m, now, fault)
    {
      var key := CorrelationKey(m);
      var start: SagaData;
      if key in instances {
        start := instances[key];
      } else if m.Created? {
        start := NewSagaData(now);
      } else {
        return Ignored;
      }
      var saga := new CreateCharacterSaga(start, store);
      match m {
        case Created(e) =>
          saga.HandleCreated(e, now);
        case Confirmed(c) =>
          saga.HandleConfirmed(c);
        case Failed(f) =>
          var _ := saga.HandleFailed(f, fault);
      }
      if saga.markedComplete {
        instances := instances - {key};
        disposition := Closed(saga.data);
      } else {
        instances := instances[key := saga.data];
        disposition := Saved(saga.data);
      }
    }
  }

  // -----------------------------------------------------------------------
  // What the saga guarantees
  // -----------------------------------------------------------------------

  /** Every message acts on the instance of ITS CharacterId only: every
      other instance, stored or not, is left as it was. */
  lemma DeliverTouchesOnlyItsKey(instances: map<string, SagaData>, chars: map<string, Character>,
                                 m: SagaMessage, now: DateTime, fault: StoreFault, k: string)
    requires k != CorrelationKey(m)
    ensures var after := Deliver(instances, chars, m, now, fault).instances;
      (k in after <==> k in instances) && (k in after ==> after[k] == instances[k])
  {
  }

  /** Only `CreateCharacterEvent` opens an instance: a key that had no
      instance has one afterwards only if the message was a creation event
      for that key. */
  lemma OnlyCreationOpens(instances: map<string, SagaData>, chars: map<string, Character>,
                          m: SagaMessage, now: DateTime, fault: StoreFault, k: string)
    requires k !in instances
    requires k in Deliver(instances, chars, m, now, fault).instances
    ensures m.Created? && m.created.characterId == k
  {
  }

  /** A decision for a key with no open instance is dropped: nothing
      changes, the character store included. */
  lemma DecisionWithoutInstanceIsIgnored(instances: map<string, SagaData>, chars: map<string, Character>,
                                         m: SagaMessage, now: DateTime, fault: StoreFault)
    requires !m.Created? && CorrelationKey(m) !in instances
    ensures Deliver(instances, chars, m, now, fault) == Step(instances, chars, Ignored)
  {
  }

  /** The creation event records CharacterId, UserId and CreatedAt in the
      instance, which stays open; the character store is not touched. A new
      instance keeps the initial empty CharacterName. */
  lemma CreationRecordsFields(instances: map<string, SagaData>, chars: map<string, Character>,
                              e: CreateCharacterEvent, now: DateTime, fault: StoreFault)
    requires ValidInstances(instances)
    ensures var s := Deliver(instances, chars, Created(e), now, fault);
      && e.characterId in s.instances
      && s.instances[e.characterId].characterId == e.characterId
      && s.instances[e.characterId].userId == e.userId
      && s.instances[e.characterId].createdAt == now
      && IsOpen(s.instances[e.characterId])
      && (e.characterId !in instances ==> s.instances[e.characterId].characterName == "")
      && s.characters == chars
      && s.disposition == Saved(s.instances[e.characterId])
  {
  }

  /** Confirmation of an open instance sets IsCompleted, closes the
      instance and leaves the character store alone. */
  lemma ConfirmationCloses(instances: map<string, SagaData>, chars: map<string, Character>,
                           c: CharacterCreationConfirmed, now: DateTime, fault: StoreFault)
    requires ValidInstances(instances)
    requires c.characterId in instances
    ensures var s := Deliver(instances, chars, Confirmed(c), now, fault);
      && c.characterId !in s.instances
      && s.characters == chars
      && s.disposition.Closed?
      && s.disposition.data.isCompleted && !s.disposition.data.isFailed
  {
  }

  /** Failure of an open instance sets IsFailed and FailureReason, deletes
      the character with that id when the store works (and deletes nothing
      otherwise, without raising), and closes the instance in every case. */
  lemma FailureCompensatesAndCloses(instances: map<string, SagaData>, chars: map<string, Character>,
                                    f: CharacterCreationFailed, now: DateTime, fault: StoreFault)
    requires ValidInstances(instances)
    requires f.characterId in instances
    ensures var s := Deliver(instances, chars, Failed(f), now, fault);
      && f.characterId !in s.instances
      && s.disposition.Closed?
      && s.disposition.data.isFailed && !s.disposition.data.isCompleted
      && s.disposition.data.failureReason == Some(f.reason)
      && (fault == NoFault ==> s.characters == chars - {f.characterId})
      && (fault != NoFault ==> s.characters == chars)
  {
    CompensationEffect(chars, f.characterId, fault);
  }

  /** The storage invariant is kept by every delivery. */
  lemma DeliverKeepsValid(instances: map<string, SagaData>, chars: map<string, Character>,
                          m: SagaMessage, now: DateTime, fault: StoreFault)
    requires ValidInstances(instances)
    ensures ValidInstances(Deliver(instances, chars, m, now, fault).instances)
  {
  }

  /** A closed instance carries exactly one of the two decisions. */
  lemma ClosedHasOneDecision(instances: map<string, SagaData>, chars: map<string, Character>,
                             m: SagaMessage, now: DateTime, fault: StoreFault)
    requires ValidInstances(instances)
    ensures var s := Deliver(instances, chars, m, now, fault);
      s.disposition.Closed? ==> s.disposition.data.isCompleted != s.disposition.data.isFailed
  {
  }

  /** The inputs of one delivery: the message, the clock and the store's
      behaviour. */
  datatype Delivery = Delivery(message: SagaMessage, at: DateTime, fault: StoreFault)

  /** A run of deliveries, in order; the dispositions are collected. */
  function DeliverAll(instances: map<string, SagaData>, chars: map<string, Character>, ds: seq<Delivery>)
    : (r: (map<string, SagaData>, map<string, Character>, seq<Disposition>))
    decreases |ds|
  {
    if ds == [] then (instances, chars, [])
    else
      var s := Deliver(instances, chars, ds[0].message, ds[0].at, ds[0].fault);
      var rest := DeliverAll(s.instances, s.characters, ds[1..]);
      (rest.0, rest.1, [s.disposition] + rest.2)
  }

  /** Over any run of deliveries starting from valid storage, no instance is
      ever both completed and failed: the storage stays valid (every stored
      instance undecided) and every instance closed on the way carries
      exactly one decision. */
  lemma {:induction false} NeverBothCompletedAndFailed(instances: map<string, SagaData>,
                                                       chars: map<string, Character>, ds: seq<Delivery>)
    requires ValidInstances(instances)
    ensures var r := DeliverAll(instances, chars, ds);
      && ValidInstances(r.0)
      && |r.2| == |ds|
      && (forall i | 0 <= i < |r.2| && r.2[i].Closed? :: r.2[i].data.isCompleted != r.2[i].data.isFailed)
    decreases |ds|
  {
    if ds != [] {
      var s := Deliver(instances, chars, ds[0].message, ds[0].at, ds[0].fault);
      DeliverKeepsValid(instances, chars, ds[0].message, ds[0].at, ds[0].fault);
      ClosedHasOneDecision(instances, chars, ds[0].message, ds[0].at, ds[0].fault);
      NeverBothCompletedAndFailed(s.instances, s.characters, ds[1..]);
      var rest := DeliverAll(s.instances, s.characters, ds[1..]);
      forall i | 0 <= i < |rest.2| + 1 && ([s.disposition] + rest.2)[i].Closed?
        ensures ([s.disposition] + rest.2)[i].data.isCompleted != ([s.disposition] + rest.2)[i].data.isFailed
      {
        if i > 0 {
          assert ([s.disposition] + rest.2)[i] == rest.2[i - 1];
        }
      }
    }
  }

  /** After one decision closed the instance, a second decision for the
      same character (either kind) is dropped. */
  lemma SecondDecisionIsIgnored(instances: map<string, SagaData>, chars: map<string, Character>,
                                first: SagaMessage, second: SagaMessage, now: DateTime, later: DateTime,
                                fault: StoreFault, fault2: StoreFault)
    requires !first.Created? && !second.Created?
    requires CorrelationKey(first) == CorrelationKey(second)
    ensures var s := Deliver(instances, chars, first, now, fault);
      Deliver(s.instances, s.characters, second, later, fault2) == Step(s.instances, s.characters, Ignored)
  {
  }

  /** Scenario: creation then confirmation leaves no instance behind and
      the character in the store. */
  lemma CreateThenConfirm(chars: map<string, Character>, id: string, user: Option<string>,
                          msg: string, t1: DateTime, t2: DateTime, fault: StoreFault)
    ensures var s1 := Deliver(map[], chars, Created(CreateCharacterEvent(id, user)), t1, fault);
      var s2 := Deliver(s1.instances, s1.characters, Confirmed(CharacterCreationConfirmed(id, msg)), t2, fault);
      && s2.instances == map[] && s2.characters == chars
      && s2.disposition == Closed(SagaData(id, "", user, true, false, None, t1))
  {
    var s1 := Deliver(map[], chars, Created(CreateCharacterEvent(id, user)), t1, fault);
    assert s1.instances == map[id := SagaData(id, "", user, false, false, None, t1)];
    assert s1.instances - {id} == map[];
  }

  /** Scenario: creation then failure, with a working store, deletes the
      character and leaves no instance behind. */
  lemma CreateThenFail(chars: map<string, Character>, id: string, user: Option<string>,
                       reason: string, t1: DateTime, t2: DateTime)
    requires id in chars
    ensures var s1 := Deliver(map[], chars, Created(CreateCharacterEvent(id, user)), t1, NoFault);
      var s2 := Deliver(s1.instances, s1.characters, Failed(CharacterCreationFailed(id, reason)), t2, NoFault);
      && s2.instances == map[] && id !in s2.characters
      && s2.disposition == Closed(SagaData(id, "", user, false, true, Some(reason), t1))
  {
    var s1 := Deliver(map[], chars, Created(CreateCharacterEvent(id, user)), t1, NoFault);
    assert s1.instances == map[id := SagaData(id, "", user, false, false, None, t1)];
    assert s1.instances - {id} == map[];
  }

  /** Scenario: the delete throws during compensation; the error is
      swallowed, the character stays, and the instance is closed anyway. */
  lemma FailWithBrokenStoreStillCloses(chars: map<string, Character>, id: string, user: Option<string>,
                                       reason: string, t1: DateTime, t2: DateTime)
    requires id in chars
    ensures var s1 := Deliver(map[], chars, Created(CreateCharacterEvent(id, user)), t1, NoFault);
      var s2 := Deliver(s1.instances, s1.characters, Failed(CharacterCreationFailed(id, reason)), t2, DeleteFails);
      && s2.instances == map[] && s2.characters == chars && id in s2.characters
      && s2.disposition.Closed? && s2.disposition.data.isFailed
  {
    var s1 := Deliver(map[], chars, Created(CreateCharacterEvent(id, user)), t1, NoFault);
    assert s1.instances == map[id := SagaData(id, "", user, false, false, None, t1)];
    assert s1.instances - {id} == map[];
  }
}
