/** `MongoDbConfiguration`: a one-time registration of the BSON Guid
    serializer and of a convention pack, and the element-naming convention in
    that pack. */
module MongoConfiguration {
  import opened Common

  /** The conventions of the pack, in registration order. */
  datatype Convention =
    | ConditionalCamelCase
    | IgnoreExtraElements(ignore: bool)
    | EnumRepresentation(bsonType: string)

  /** What `Configure` registers with the driver's global registries. */
  datatype Registration =
    | GuidSerializerStandard
    | ConventionPack(name: string, conventions: seq<Convention>)

  const CONVENTIONS_NAME: string := "DungeonCrawlerConventions"

  /** The registrations of one effective `Configure`: the Guid serializer
      first, then the pack, applied to every type. */
  const REGISTRATIONS: seq<Registration> := [
    GuidSerializerStandard,
    ConventionPack(CONVENTIONS_NAME, [ConditionalCamelCase, IgnoreExtraElements(true), EnumRepresentation("String")])
  ]

  /** The static state: the `_initialized` flag and what has been registered
      so far. */
  datatype ConfigState = ConfigState(initialized: bool, registered: seq<Registration>)

  /** The state after `Configure()`. */
  function Configured(s: ConfigState): ConfigState {
    if s.initialized then s else ConfigState(true, s.registered + REGISTRATIONS)
  }

  /** The class's static fields, as one object. The lock around the body is
      not modelled: calls are sequential. */
  class MongoDbConfiguration {
    var initialized: bool
    var registered: seq<Registration>

    function State(): ConfigState
      reads this
    {
      ConfigState(initialized, registered)
    }

    /** The process starts with nothing registered. */
    constructor ()
      ensures State() == ConfigState(false, [])
    {
      initialized := false;
      registered := [];
    }

    /** `Configure()`: return at once when already initialized; otherwise
        register the serializer, then the pack, then set the flag. */
    method Configure()
      modifies this
      ensures State() == Configured(old(State()))
    {
      if initialized {
        return;
      }
      registered := registered + [GuidSerializerStandard];
      registered := registered + [REGISTRATIONS[1]];
      initialized := true;
    }
  }

  /** Configuring is idempotent, so any number of calls registers once. */
  lemma ConfigureIsIdempotent(s: ConfigState)
    ensures Configured(s).initialized
    ensures Configured(Configured(s)) == Configured(s)
  {
  }

  /** From the start state, every number n >= 1 of calls leaves two
      registrations. */
  lemma {:induction false} ConfiguredManyTimes(n: nat)
    requires n >= 1
    ensures ConfiguredTimes(ConfigState(false, []), n) == ConfigState(true, REGISTRATIONS)
  {
    if n > 1 {
      ConfiguredManyTimes(n - 1);
    }
  }

  function ConfiguredTimes(s: ConfigState, n: nat): ConfigState {
    if n == 0 then s else Configured(ConfiguredTimes(s, n - 1))
  }

  // ---------------------------------------------------------------------
  // ConditionalCamelCaseConvention
  // ---------------------------------------------------------------------

  /** `char.ToLowerInvariant(name[0]) + name.Substring(1)`, with the
      first character lowered over ASCII only: 'A'..'Z' become 'a'..'z',
      every other character is kept. */
  function CamelCase(name: string): (r: string)
    requires name != ""
    ensures |r| == |name| && r[1..] == name[1..]
    ensures r[0] == ToLowerAscii(name[0])
  {
    [ToLowerAscii(name[0])] + name[1..]
  }

  /** The element name `Apply` leaves on a member map whose element name
      was still the member name (the driver's default): saga data keep their
      names except `Id`, which becomes `_id`; other classes are camelCased. */
  function ElementName(isSagaData: bool, memberName: string): string
    requires memberName != ""
  {
    if isSagaData then (if memberName == "Id" then "_id" else memberName)
    else CamelCase(memberName)
  }

  /** `BsonMemberMap`, reduced to what the convention reads and writes. */
  class MemberMap {
    const memberName: string
    const isSagaData: bool
    var elementName: string

    /** A fresh member map is named after its member. */
    constructor (memberName: string, isSagaData: bool)
      ensures this.memberName == memberName && this.isSagaData == isSagaData
      ensures elementName == memberName
    {
      this.memberName := memberName;
      this.isSagaData := isSagaData;
      elementName := memberName;
    }
  }

  /** `ConditionalCamelCaseConvention.Apply(memberMap)`: `SetElementName`
      is called for a saga `Id` and for every non-saga member; other saga
      members are left alone. */
  method Apply(m: MemberMap)
    requires m.memberName != ""
    modifies m
    ensures m.isSagaData && m.memberName != "Id" ==> m.elementName == old(m.elementName)
    ensures !m.isSagaData || m.memberName == "Id" ==> m.elementName == ElementName(m.isSagaData, m.memberName)
  {
    if m.isSagaData {
      if m.memberName == "Id" {
        m.elementName := "_id";
      }
      return;
    }
    var elementName := [ToLowerAscii(m.memberName[0])] + m.memberName[1..];
    m.elementName := elementName;
  }

  /** Applied to a fresh member map, the convention yields `ElementName`. */
  method ApplyToFresh(memberName: string, isSagaData: bool) returns (elementName: string)
    requires memberName != ""
    ensures elementName == ElementName(isSagaData, memberName)
  {
    var m := new MemberMap(memberName, isSagaData);
    Apply(m);
    elementName := m.elementName;
  }

  /** Camel-casing keeps the length and all but the first character, and
      applying it twice is applying it once. */
  lemma CamelCaseIsIdempotent(name: string)
    requires name != ""
    ensures CamelCase(CamelCase(name)) == CamelCase(name)
  {
    assert CamelCase(name)[1..] == name[1..];
  }

  /** A name that does not start with an ASCII upper-case letter is
      unchanged. */
  lemma CamelCaseOfLowerIsUnchanged(name: string)
    requires name != "" && !('A' <= name[0] <= 'Z')
    ensures CamelCase(name) == name
  {
    assert CamelCase(name) == [name[0]] + name[1..];
  }

  /** Examples: `TargetCount` is stored as `targetCount`; a saga's `Id` is
      `_id` while its `Revision` keeps its name. */
  lemma ElementNameExamples()
    ensures ElementName(false, "TargetCount") == "targetCount"
    ensures ElementName(false, "Id") == "id"
    ensures ElementName(true, "Id") == "_id"
    ensures ElementName(true, "Revision") == "Revision"
  {
    assert CamelCase("TargetCount") == ['t'] + "TargetCount"[1..];
    assert CamelCase("Id") == ['i'] + "Id"[1..];
  }
}
