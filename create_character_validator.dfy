/** `CreateCharacterCommandValidator`: the FluentValidation rules on Name,
    ClassCode and UserId. Every rule of every property is evaluated (the
    default cascade mode), and the errors come out in rule order. */
module CreateCharacterValidator {
  import opened Common
  import opened CreateCharacter

  const NAME_MAX_LENGTH: nat := 50

  const NAME_REQUIRED := ValidationFailure("Name", "Name is required.")
  const NAME_TOO_LONG := ValidationFailure("Name", "Name cannot exceed 50 characters.")
  const CLASS_OUT_OF_RANGE := ValidationFailure("ClassCode", "ClassCode must be between 1 and 3 included.")
  const USER_REQUIRED := ValidationFailure("UserId", "UserId is required.")

  function NameErrors(name: string): seq<ValidationFailure> {
    (if IsBlank(name) then [NAME_REQUIRED] else []) +
    (if |name| > NAME_MAX_LENGTH then [NAME_TOO_LONG] else [])
  }

  /** `InclusiveBetween(1, 3)`. */
  function ClassCodeErrors(classCode: Int32): seq<ValidationFailure> {
    if 1 <= classCode <= 3 then [] else [CLASS_OUT_OF_RANGE]
  }

  function UserIdErrors(userId: string): seq<ValidationFailure> {
    if IsBlank(userId) then [USER_REQUIRED] else []
  }

  function Validate(cmd: CreateCharacterCommand): seq<ValidationFailure> {
    NameErrors(cmd.name) + ClassCodeErrors(cmd.classCode) + UserIdErrors(cmd.userId)
  }

  /** The command is valid iff the name is non-blank and at most 50
      characters long, the class code is 1, 2 or 3, and the user id is
      non-blank; every error names one of the three properties. */
  lemma ValidIff(cmd: CreateCharacterCommand)
    ensures Validate(cmd) == [] <==>
      !IsBlank(cmd.name) && |cmd.name| <= NAME_MAX_LENGTH && 1 <= cmd.classCode <= 3 && !IsBlank(cmd.userId)
    ensures forall e | e in Validate(cmd) :: e.propertyName in {"Name", "ClassCode", "UserId"}
  {
  }

  /** The length boundary: a non-blank name of 50 characters passes the
      Name rules, one of 51 fails with exactly the length message. */
  lemma NameLengthBoundary(name: string)
    requires !IsBlank(name)
    ensures |name| == 50 ==> NameErrors(name) == []
    ensures |name| == 51 ==> NameErrors(name) == [NAME_TOO_LONG]
  {
  }

  /** An empty name gives only the required message, not the length one. */
  lemma EmptyNameIsOnlyRequired()
    ensures NameErrors("") == [NAME_REQUIRED]
  {
  }

  /** Class codes 0, -1 and 4 are refused; 1, 2 and 3 are accepted. */
  lemma ClassCodeExamples()
    ensures ClassCodeErrors(0) == [CLASS_OUT_OF_RANGE] && ClassCodeErrors(-1) == [CLASS_OUT_OF_RANGE]
    ensures ClassCodeErrors(4) == [CLASS_OUT_OF_RANGE]
    ensures ClassCodeErrors(1) == [] && ClassCodeErrors(2) == [] && ClassCodeErrors(3) == []
  {
  }

  /** A single violated field yields exactly one error, named after that
      property and carrying its message. */
  lemma SingleViolation(cmd: CreateCharacterCommand)
    ensures IsBlank(cmd.name) && |cmd.name| <= NAME_MAX_LENGTH && 1 <= cmd.classCode <= 3 && !IsBlank(cmd.userId) ==>
      Validate(cmd) == [NAME_REQUIRED]
    ensures !IsBlank(cmd.name) && |cmd.name| > NAME_MAX_LENGTH && 1 <= cmd.classCode <= 3 && !IsBlank(cmd.userId) ==>
      Validate(cmd) == [NAME_TOO_LONG]
    ensures !IsBlank(cmd.name) && |cmd.name| <= NAME_MAX_LENGTH && !(1 <= cmd.classCode <= 3) && !IsBlank(cmd.userId) ==>
      Validate(cmd) == [CLASS_OUT_OF_RANGE]
    ensures !IsBlank(cmd.name) && |cmd.name| <= NAME_MAX_LENGTH && 1 <= cmd.classCode <= 3 && IsBlank(cmd.userId) ==>
      Validate(cmd) == [USER_REQUIRED]
  {
  }

  /** With every field invalid, the errors name Name, ClassCode and UserId. */
  lemma AllFieldsInvalid(cmd: CreateCharacterCommand)
    requires IsBlank(cmd.name) && !(1 <= cmd.classCode <= 3) && IsBlank(cmd.userId)
    ensures "Name" in PropertyNames(Validate(cmd))
    ensures "ClassCode" in PropertyNames(Validate(cmd))
    ensures "UserId" in PropertyNames(Validate(cmd))
  {
    var errs := Validate(cmd);
    assert errs[0] == NAME_REQUIRED;
    assert errs[|errs| - 2] == CLASS_OUT_OF_RANGE;
    assert errs[|errs| - 1] == USER_REQUIRED;
    assert PropertyNames(errs)[0] == "Name";
  }

  /** A whitespace-only name longer than 50 characters breaks both Name
      rules at once, since both are evaluated. */
  lemma BlankLongNameGetsBothErrors(name: string)
    requires IsBlank(name) && |name| > NAME_MAX_LENGTH
    ensures NameErrors(name) == [NAME_REQUIRED, NAME_TOO_LONG]
  {
  }
}
