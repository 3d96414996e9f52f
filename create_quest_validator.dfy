/** `CreateQuestCommandValidator`: the code must be present and must not be
    a code already stored. */
module CreateQuestValidator {
  import opened Common
  import opened QuestDomain
  import opened QuestsHandlers

  const CODE_REQUIRED: string := "Le code est obligatoire."
  const CODE_IN_USE: string := "Ce code unique est déjà utilisé par une autre quête."

  /** `repository.ExistsAsync(q => q.Code == code)`: an exact, case-sensitive
      comparison in the database. */
  predicate CodeExists(qs: seq<QuestDefinition>, code: string) {
    exists i | 0 <= i < |qs| :: qs[i].code == code
  }

  /** The rule chain on `Code`. The cascade mode is the default, so both
      rules run and an empty code already stored gets both messages. */
  function Validate(qs: seq<QuestDefinition>, cmd: CreateQuestCommand): (errors: seq<ValidationFailure>)
    ensures forall e | e in errors :: e.propertyName == "Code"
    ensures |errors| <= 2
  {
    (if IsBlank(cmd.code) then [ValidationFailure("Code", CODE_REQUIRED)] else []) +
    (if CodeExists(qs, cmd.code) then [ValidationFailure("Code", CODE_IN_USE)] else [])
  }

  /** A command passes exactly when its code is not blank and not stored
      verbatim; each violated rule contributes its own message. */
  lemma ValidateMeaning(qs: seq<QuestDefinition>, cmd: CreateQuestCommand)
    ensures Validate(qs, cmd) == [] <==> !IsBlank(cmd.code) && !CodeExists(qs, cmd.code)
    ensures ValidationFailure("Code", CODE_REQUIRED) in Validate(qs, cmd) <==> IsBlank(cmd.code)
    ensures ValidationFailure("Code", CODE_IN_USE) in Validate(qs, cmd) <==> CodeExists(qs, cmd.code)
  {
    assert |CODE_REQUIRED| != |CODE_IN_USE|;
  }

  /** The empty code is rejected as missing. */
  lemma EmptyCodeIsRequired(qs: seq<QuestDefinition>, cmd: CreateQuestCommand)
    requires cmd.code == ""
    ensures Validate(qs, cmd)[0] == ValidationFailure("Code", CODE_REQUIRED)
  {
  }

  /** The validator is case-sensitive while the handler is not: with "ABC"
      stored, "abc" passes validation and is then refused by the handler. */
  lemma CaseVariantPassesValidationButNotCreation(q: QuestDefinition, cmd: CreateQuestCommand, newId: Guid)
    requires q.code == "ABC" && cmd.code == "abc"
    ensures Validate([q], cmd) == []
    ensures Created([q], cmd, newId).0 == Failure(DuplicateCodeMessage("abc"))
  {
    assert "ABC" != "abc" by { assert "ABC"[0] != "abc"[0]; }
    assert !IsBlank("abc") by { assert !IsWhiteSpace("abc"[0]); }
    assert Fold("ABC") == Fold("abc") by {
      assert Fold("ABC")[0] == 'a' && Fold("ABC")[1] == 'b' && Fold("ABC")[2] == 'c';
    }
    assert EqualsIgnoreCase([q][0].code, cmd.code);
  }

  /** Anything the validator rejects as stored is also refused by the
      handler: an exact match is a match ignoring case. */
  lemma StoredCodeIsTaken(qs: seq<QuestDefinition>, code: string)
    requires CodeExists(qs, code)
    ensures CodeTaken(qs, code)
  {
    var i :| 0 <= i < |qs| && qs[i].code == code;
    assert EqualsIgnoreCase(qs[i].code, code);
  }
}
