/** `LinkRoomsCommandValidator`: FluentValidation rules on the undirected
    link command. Rules run in declaration order and every rule is
    evaluated; the last, model-level rule parses the numeric prefixes of the
    two room ids with `int.Parse`, which throws on an empty or oversized
    prefix, so the validator itself can fail with that exception. */
module LinkRoomsValidator {
  import opened Common
  import opened LinkRoomsUndirected

  const DUNGEON_REQUIRED := ValidationFailure("DungeonId", "DungeonId is required.")
  const DUNGEON_NOT_OBJECT_ID := ValidationFailure("DungeonId", "DungeonId must be a valid MongoDB ObjectId.")
  const TO_REQUIRED := ValidationFailure("ToRoomId", "ToRoomId is required.")
  const TO_BAD_FORMAT := ValidationFailure("ToRoomId", "ToRoomId must be in the format of a number followed by a letter (e.g., '1a', '2b').")
  /** The FromRoomId rule carries the ToRoomId message, as written. */
  const FROM_REQUIRED := ValidationFailure("FromRoomId", "ToRoomId is required.")
  const FROM_BAD_FORMAT := ValidationFailure("FromRoomId", "FromRoomId must be in the format of a number followed by a letter (e.g., '1a', '2b').")
  /** A rule on the whole command has the empty property name. */
  const NOT_SEQUENTIAL := ValidationFailure("", "ToRoomId must be the next sequential room number after FromRoomId (e.g., '1a' -> '2b', '2b' -> '3a').")

  /** `ObjectId.TryParse`: exactly 24 hexadecimal digits. */
  predicate IsObjectId(s: string) {
    |s| == 24 && forall i | 0 <= i < |s| :: IsHexDigit(s[i])
  }

  /** Digits followed by exactly one ASCII letter, e.g. "10c". */
  predicate IsRoomId(s: string) {
    |s| >= 2 && AllDigits(s[..|s| - 1]) && IsAsciiLetter(s[|s| - 1])
  }

  /** The regex `^\d+[a-zA-Z]$`. In .NET `$` also matches just before a
      final line feed, so a room id followed by "\n" matches too. */
  predicate MatchesRoomIdPattern(s: string) {
    IsRoomId(s) || (|s| >= 1 && s[|s| - 1] == '\n' && IsRoomId(s[..|s| - 1]))
  }

  /** `new string(s.TakeWhile(char.IsDigit).ToArray())`. */
  function DigitPrefix(s: string): (p: string)
    ensures |p| <= |s| && p == s[..|p|]
    ensures AllDigits(p)
    ensures |p| < |s| ==> !IsAsciiDigit(s[|p|])
    decreases |s|
  {
    if s == [] || !IsAsciiDigit(s[0]) then [] else [s[0]] + DigitPrefix(s[1..])
  }

  /** The exceptions of `int.Parse` on a digit string. */
  datatype ParseError = FormatException | OverflowException

  /** `int.Parse` of a string of ASCII digits: empty is a format error, a
      value above Int32.MaxValue an overflow, anything else its value. */
  function ParseInt32(digits: string): (r: Result<Int32, ParseError>)
    requires AllDigits(digits)
    ensures digits == [] ==> r == Failure(FormatException)
    ensures digits != [] && DecimalValue(digits) > INT32_MAX ==> r == Failure(OverflowException)
    ensures digits != [] && DecimalValue(digits) <= INT32_MAX ==> r == Success(DecimalValue(digits))
  {
    if digits == [] then Failure(FormatException)
    else if DecimalValue(digits) > INT32_MAX then Failure(OverflowException)
    else Success(DecimalValue(digits))
  }

  /** The model-level rule: ToRoomId's number is parsed first, then
      FromRoomId's; the rule holds iff to == from + 1, the addition being
      unchecked C# `int` arithmetic. */
  function Sequential(cmd: LinkRoomsCommand): Result<bool, ParseError> {
    match ParseInt32(DigitPrefix(cmd.toRoomId))
    case Failure(e) => Failure(e)
    case Success(toNumber) =>
      match ParseInt32(DigitPrefix(cmd.fromRoomId))
      case Failure(e) => Failure(e)
      case Success(fromNumber) => Success(toNumber == AddInt32(fromNumber, 1))
  }

  function DungeonIdErrors(id: string): seq<ValidationFailure> {
    (if IsBlank(id) then [DUNGEON_REQUIRED] else []) +
    (if IsObjectId(id) then [] else [DUNGEON_NOT_OBJECT_ID])
  }

  function ToRoomIdErrors(id: string): seq<ValidationFailure> {
    (if IsBlank(id) then [TO_REQUIRED] else []) +
    (if MatchesRoomIdPattern(id) then [] else [TO_BAD_FORMAT])
  }

  function FromRoomIdErrors(id: string): seq<ValidationFailure> {
    (if IsBlank(id) then [FROM_REQUIRED] else []) +
    (if MatchesRoomIdPattern(id) then [] else [FROM_BAD_FORMAT])
  }

  /** `Validate(command)`: the errors in rule order, or the exception the
      sequential rule throws. */
  function Validate(cmd: LinkRoomsCommand): Result<seq<ValidationFailure>, ParseError> {
    var fieldErrors := DungeonIdErrors(cmd.dungeonId) + ToRoomIdErrors(cmd.toRoomId) + FromRoomIdErrors(cmd.fromRoomId);
    match Sequential(cmd)
    case Failure(e) => Failure(e)
    case Success(ok) => Success(fieldErrors + (if ok then [] else [NOT_SEQUENTIAL]))
  }

  // -----------------------------------------------------------------------
  // Properties
  // -----------------------------------------------------------------------

  /** The digit prefix of a room id is everything but its letter (and its
      optional final line feed). */
  lemma {:induction false} DigitPrefixOfDigitsThenOther(ds: string, rest: string)
    requires AllDigits(ds)
    requires rest == [] || !IsAsciiDigit(rest[0])
    ensures DigitPrefix(ds + rest) == ds
    decreases |ds|
  {
    if ds == [] {
      assert ds + rest == rest;
    } else {
      assert (ds + rest)[1..] == ds[1..] + rest;
      DigitPrefixOfDigitsThenOther(ds[1..], rest);
      assert [ds[0]] + ds[1..] == ds;
    }
  }

  /** A room id that matches the pattern starts with a non-empty digit
      string, its number. */
  lemma RoomNumberOfMatchingId(s: string)
    requires MatchesRoomIdPattern(s)
    ensures DigitPrefix(s) != []
    ensures IsRoomId(s) ==> DigitPrefix(s) == s[..|s| - 1]
  {
    var core := if IsRoomId(s) then s else s[..|s| - 1];
    assert s == core[..|core| - 1] + s[|core| - 1..];
    DigitPrefixOfDigitsThenOther(core[..|core| - 1], s[|core| - 1..]);
  }

  /** For ids of the form digits-then-letter whose numbers fit in an Int32,
      the validator does not throw, and the sequential rule is broken iff
      the number of ToRoomId is not that of FromRoomId plus one. */
  lemma SequentialIffNextNumber(dungeonId: string, fromDigits: string, fromLetter: char,
                                toDigits: string, toLetter: char)
    requires fromDigits != [] && AllDigits(fromDigits) && IsAsciiLetter(fromLetter)
    requires toDigits != [] && AllDigits(toDigits) && IsAsciiLetter(toLetter)
    requires DecimalValue(fromDigits) <= INT32_MAX && DecimalValue(toDigits) <= INT32_MAX
    ensures var cmd := LinkRoomsCommand(dungeonId, fromDigits + [fromLetter], toDigits + [toLetter]);
      && Sequential(cmd) == Success(DecimalValue(toDigits) == DecimalValue(fromDigits) + 1)
      && Validate(cmd).Success?
      && (NOT_SEQUENTIAL in Validate(cmd).value <==> DecimalValue(toDigits) != DecimalValue(fromDigits) + 1)
  {
    DigitPrefixOfDigitsThenOther(fromDigits, [fromLetter]);
    DigitPrefixOfDigitsThenOther(toDigits, [toLetter]);
    var cmd := LinkRoomsCommand(dungeonId, fromDigits + [fromLetter], toDigits + [toLetter]);
    var ok := DecimalValue(toDigits) == DecimalValue(fromDigits) + 1;
    assert Sequential(cmd) == Success(ok);
    FieldErrorsAreNotSequential(cmd);
  }

  /** The field rules never produce the model-level error. */
  lemma FieldErrorsAreNotSequential(cmd: LinkRoomsCommand)
    ensures var fieldErrors := DungeonIdErrors(cmd.dungeonId) + ToRoomIdErrors(cmd.toRoomId) + FromRoomIdErrors(cmd.fromRoomId);
      forall e | e in fieldErrors :: e.propertyName != ""
  {
  }

  /** The letters never matter: changing either letter keeps the outcome
      of the sequential rule. */
  lemma LettersAreIrrelevant(dungeonId: string, fromDigits: string, toDigits: string,
                             a: char, b: char, c: char, d: char)
    requires AllDigits(fromDigits) && AllDigits(toDigits)
    requires !IsAsciiDigit(a) && !IsAsciiDigit(b) && !IsAsciiDigit(c) && !IsAsciiDigit(d)
    ensures Sequential(LinkRoomsCommand(dungeonId, fromDigits + [a], toDigits + [b])) ==
            Sequential(LinkRoomsCommand(dungeonId, fromDigits + [c], toDigits + [d]))
  {
    DigitPrefixOfDigitsThenOther(fromDigits, [a]);
    DigitPrefixOfDigitsThenOther(toDigits, [b]);
    DigitPrefixOfDigitsThenOther(fromDigits, [c]);
    DigitPrefixOfDigitsThenOther(toDigits, [d]);
  }

  /** The documented examples: 1a -> 2b and 2b -> 3a are sequential,
      2b -> 2c is not. */
  lemma SequentialExamples(dungeonId: string)
    ensures Sequential(LinkRoomsCommand(dungeonId, "1a", "2b")) == Success(true)
    ensures Sequential(LinkRoomsCommand(dungeonId, "2b", "3a")) == Success(true)
    ensures Sequential(LinkRoomsCommand(dungeonId, "2b", "2c")) == Success(false)
  {
    DigitPrefixOfDigitsThenOther("1", "a");
    DigitPrefixOfDigitsThenOther("2", "b");
    DigitPrefixOfDigitsThenOther("3", "a");
    DigitPrefixOfDigitsThenOther("2", "c");
    assert "1a" == "1" + "a" && "2b" == "2" + "b" && "3a" == "3" + "a" && "2c" == "2" + "c";
    assert DecimalValue("1") == 1 && DecimalValue("2") == 2 && DecimalValue("3") == 3;
  }

  /** A well-formed, sequential command with a valid ObjectId passes. */
  lemma WellFormedCommandPasses(dungeonId: string, fromDigits: string, fromLetter: char,
                                toDigits: string, toLetter: char)
    requires IsObjectId(dungeonId) && !IsBlank(dungeonId)
    requires fromDigits != [] && AllDigits(fromDigits) && IsAsciiLetter(fromLetter)
    requires toDigits != [] && AllDigits(toDigits) && IsAsciiLetter(toLetter)
    requires DecimalValue(toDigits) <= INT32_MAX
    requires DecimalValue(toDigits) == DecimalValue(fromDigits) + 1
    ensures Validate(LinkRoomsCommand(dungeonId, fromDigits + [fromLetter], toDigits + [toLetter])) == Success([])
  {
    var from := fromDigits + [fromLetter];
    var to := toDigits + [toLetter];
    assert from[..|from| - 1] == fromDigits && to[..|to| - 1] == toDigits;
    assert !IsWhiteSpace(from[0]) && !IsWhiteSpace(to[0]);
    DigitPrefixOfDigitsThenOther(fromDigits, [fromLetter]);
    DigitPrefixOfDigitsThenOther(toDigits, [toLetter]);
  }

  /** The pattern accepts "1a", "10c" and, through `$`, "1a\n"; it refuses
      "a1", "1" and "1ab". */
  lemma PatternExamples()
    ensures MatchesRoomIdPattern("1a") && MatchesRoomIdPattern("10c") && MatchesRoomIdPattern("1a\n")
    ensures !MatchesRoomIdPattern("a1") && !MatchesRoomIdPattern("1") && !MatchesRoomIdPattern("1ab")
  {
    assert "1a\n"[..2] == "1a";
    assert "1ab"[..2] == "1a" && !IsAsciiDigit("1ab"[..2][1]);
  }

  /** An empty FromRoomId is reported under FromRoomId with the message of
      the ToRoomId rule, beside the format error. */
  lemma EmptyFromRoomIdMessage()
    ensures FromRoomIdErrors("") == [ValidationFailure("FromRoomId", "ToRoomId is required."), FROM_BAD_FORMAT]
  {
  }

  /** An empty (or letter-first) ToRoomId has no digits to parse: the
      sequential rule throws FormatException instead of adding an error. */
  lemma EmptyToRoomIdThrows(dungeonId: string, fromRoomId: string, toRoomId: string)
    requires toRoomId == [] || !IsAsciiDigit(toRoomId[0])
    ensures Validate(LinkRoomsCommand(dungeonId, fromRoomId, toRoomId)) == Failure(FormatException)
  {
    DigitPrefixOfDigitsThenOther([], toRoomId);
    assert [] + toRoomId == toRoomId;
  }

  /** A FromRoomId numbered Int32.MaxValue: `from + 1` wraps to
      Int32.MinValue, so no ToRoomId is sequential to it. */
  lemma MaxRoomNumberHasNoSuccessor(cmd: LinkRoomsCommand)
    requires Sequential(cmd).Success?
    requires ParseInt32(DigitPrefix(cmd.fromRoomId)) == Success(INT32_MAX)
    ensures Sequential(cmd) == Success(false)
  {
  }

  /** The DungeonId rules: an id passes both exactly when it is a valid
      ObjectId (which is never blank); otherwise the ObjectId message is
      reported, and the empty string breaks both. */
  lemma DungeonIdRules(id: string)
    ensures DungeonIdErrors(id) == [] <==> IsObjectId(id)
    ensures !IsObjectId(id) ==> DUNGEON_NOT_OBJECT_ID in DungeonIdErrors(id)
    ensures DungeonIdErrors("") == [DUNGEON_REQUIRED, DUNGEON_NOT_OBJECT_ID]
  {
    if IsObjectId(id) {
      assert !IsWhiteSpace(id[0]);
    }
  }

  /** The validator accepts a command, with no error and no exception,
      exactly when the DungeonId is a non-blank ObjectId, both room ids are
      non-blank and match the pattern, and the room numbers follow each
      other. */
  lemma ValidateAcceptsIff(cmd: LinkRoomsCommand)
    ensures Validate(cmd) == Success([]) <==>
      && !IsBlank(cmd.dungeonId) && IsObjectId(cmd.dungeonId)
      && !IsBlank(cmd.toRoomId) && MatchesRoomIdPattern(cmd.toRoomId)
      && !IsBlank(cmd.fromRoomId) && MatchesRoomIdPattern(cmd.fromRoomId)
      && Sequential(cmd) == Success(true)
  {
    if Sequential(cmd).Success? {
      var fieldErrors := DungeonIdErrors(cmd.dungeonId) + ToRoomIdErrors(cmd.toRoomId) + FromRoomIdErrors(cmd.fromRoomId);
      assert Validate(cmd) == Success(fieldErrors + (if Sequential(cmd).value then [] else [NOT_SEQUENTIAL]));
    }
  }

  /** A malformed or blank room id is rejected: when the sequential rule
      does not throw, that field's errors are among the validator's. */
  lemma MalformedRoomIdIsRejected(cmd: LinkRoomsCommand)
    requires Sequential(cmd).Success?
    ensures !MatchesRoomIdPattern(cmd.toRoomId) ==> TO_BAD_FORMAT in Validate(cmd).value
    ensures IsBlank(cmd.toRoomId) ==> TO_REQUIRED in Validate(cmd).value
    ensures !MatchesRoomIdPattern(cmd.fromRoomId) ==> FROM_BAD_FORMAT in Validate(cmd).value
    ensures IsBlank(cmd.fromRoomId) ==> FROM_REQUIRED in Validate(cmd).value
    ensures !IsObjectId(cmd.dungeonId) ==> DUNGEON_NOT_OBJECT_ID in Validate(cmd).value
    ensures IsBlank(cmd.dungeonId) ==> DUNGEON_REQUIRED in Validate(cmd).value
  {
    var fieldErrors := DungeonIdErrors(cmd.dungeonId) + ToRoomIdErrors(cmd.toRoomId) + FromRoomIdErrors(cmd.fromRoomId);
    assert Validate(cmd).value == fieldErrors + (if Sequential(cmd).value then [] else [NOT_SEQUENTIAL]);
  }
}
