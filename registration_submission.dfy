/**
 * The pieces of RegistrationView.post that are rules on values: the 409
 * conflict map, the honor-code shim on the submitted data, and the response
 * for each answer of the account-creation collaborator.
 */
module RegistrationSubmission {
  import opened Wrappers
  import opened RegistrationConfig

  /** A field check_account_exists reports as already taken. */
  datatype ConflictField = Email | Username {
    function Name(): (r: string)
      ensures r == "email" || r == "username"
    {
      match this
      case Email => "email"
      case Username => "username"
    }
  }

  /**
   * A message for the user. The conflict messages are the account module's
   * templates filled with the submitted email or username (None when absent).
   */
  datatype UserMessage = EmailConflict(email: Option<string>) | UsernameConflict(username: Option<string>) | Message(text: string)

  /** How create_account_with_params answered. */
  datatype CreationOutcome =
    | AccountCreated
    | AccountValidationError(field: string, message: string)
    | ValidationError(messageDict: map<string, seq<string>>)
    | PermissionDenied

  datatype Response =
    | Errors(status: int, errors: map<string, seq<UserMessage>>)
    | Forbidden(message: string)
    | Succeeded
    | ServerError

  /** The key under which a validation error that belongs to no field is reported. */
  const NonFieldErrors := "__all__"

  const AccountCreationNotAllowed := "Account creation not allowed."

  /** The conflict message of a taken field, filled with the submitted value of that field. */
  function ConflictMessage(field: ConflictField, data: map<string, string>): (r: UserMessage)
    ensures r.EmailConflict? <==> field == Email
    ensures r.UsernameConflict? <==> field == Username
    ensures r.EmailConflict? ==> r.email == Lookup(data, "email")
    ensures r.UsernameConflict? ==> r.username == Lookup(data, "username")
  {
    match field
    case Email => EmailConflict(Lookup(data, "email"))
    case Username => UsernameConflict(Lookup(data, "username"))
  }

  /** One entry per conflicting field, holding that field's single conflict message. */
  function ConflictErrors(data: map<string, string>, conflicts: seq<ConflictField>): (r: map<string, seq<UserMessage>>)
    ensures r.Keys == set c | c in conflicts :: c.Name()
    ensures forall c :: c in conflicts ==> r[c.Name()] == [ConflictMessage(c, data)]
  {
    map c | c in conflicts :: c.Name() := [ConflictMessage(c, data)]
  }

  /** Python truthiness of an optional string: present and non-empty. */
  predicate Truthy(value: Option<string>)
    ensures Truthy(value) ==> value.Some? && |value.value| > 0
    ensures value.None? || value == Some("") ==> !Truthy(value)
  {
    value.Some? && value.value != ""
  }

  /**
   * The backward-compatibility shim: a non-empty honor_code is copied into an
   * absent terms_of_service; nothing else in the data changes.
   */
  function ShimHonorCode(data: map<string, string>): (r: map<string, string>)
    ensures forall key :: key != "terms_of_service" ==> Lookup(r, key) == Lookup(data, key)
    ensures Lookup(r, "terms_of_service") ==
      if "terms_of_service" !in data && Truthy(Lookup(data, "honor_code")) then Lookup(data, "honor_code")
      else Lookup(data, "terms_of_service")
  {
    if Truthy(Lookup(data, "honor_code")) && "terms_of_service" !in data then
      data["terms_of_service" := data["honor_code"]]
    else data
  }

  /** Applying the shim a second time changes nothing. */
  lemma ShimHonorCodeIdempotent(data: map<string, string>)
    ensures ShimHonorCode(ShimHonorCode(data)) == ShimHonorCode(data)
  {
    var once := ShimHonorCode(data);
    var twice := ShimHonorCode(once);
    forall key ensures Lookup(twice, key) == Lookup(once, key) {
    }
    assert twice.Keys == once.Keys by {
      forall key ensures key in twice <==> key in once {
        assert Lookup(twice, key) == Lookup(once, key);
      }
    }
    forall key | key in twice ensures twice[key] == once[key] {
      assert Lookup(twice, key) == Lookup(once, key);
    }
  }

  /** After the shim, terms_of_service is present whenever honor_code is non-empty. */
  lemma ShimHonorCodeFillsTerms(data: map<string, string>)
    requires Truthy(Lookup(data, "honor_code"))
    ensures "terms_of_service" in ShimHonorCode(data)
    ensures "terms_of_service" !in data ==> ShimHonorCode(data)["terms_of_service"] == data["honor_code"]
  {
    assert Lookup(ShimHonorCode(data), "terms_of_service").Some?;
  }

  function ValidationMessages(messages: seq<string>): (r: seq<UserMessage>)
    ensures |r| == |messages|
    ensures forall i :: 0 <= i < |messages| ==> r[i] == Message(messages[i])
  {
    seq(|messages|, i requires 0 <= i < |messages| => Message(messages[i]))
  }

  /** The response for the creation collaborator's answer. */
  function CreationResponse(outcome: CreationOutcome): (r: Response)
    ensures r.Succeeded? <==> outcome.AccountCreated?
    ensures r.Forbidden? <==> outcome.PermissionDenied?
    ensures r.Forbidden? ==> r.message == AccountCreationNotAllowed
    ensures outcome.AccountValidationError? ==>
      r == Errors(409, map[outcome.field := [Message(outcome.message)]])
    ensures outcome.ValidationError? && NonFieldErrors in outcome.messageDict ==> r == ServerError
    ensures outcome.ValidationError? && NonFieldErrors !in outcome.messageDict ==>
      r.Errors? && r.status == 400 && r.errors.Keys == outcome.messageDict.Keys &&
      forall field :: field in outcome.messageDict ==> r.errors[field] == ValidationMessages(outcome.messageDict[field])
  {
    match outcome
    case AccountCreated => Succeeded
    case AccountValidationError(field, message) => Errors(409, map[field := [Message(message)]])
    case ValidationError(messageDict) =>
      if NonFieldErrors in messageDict then ServerError
      else Errors(400, map field | field in messageDict :: ValidationMessages(messageDict[field]))
    case PermissionDenied => Forbidden(AccountCreationNotAllowed)
  }

  /** A taken email is reported under "email" with its conflict message, a taken username under "username". */
  lemma ConflictErrorsKeyed(data: map<string, string>, conflicts: seq<ConflictField>)
    ensures Email in conflicts <==> "email" in ConflictErrors(data, conflicts)
    ensures Username in conflicts <==> "username" in ConflictErrors(data, conflicts)
    ensures Email in conflicts ==> ConflictErrors(data, conflicts)["email"] == [EmailConflict(Lookup(data, "email"))]
    ensures |ConflictErrors(data, conflicts)| <= 2
  {
    var r := ConflictErrors(data, conflicts);
    if "email" in r {
      var c :| c in conflicts && c.Name() == "email";
      assert c == Email;
    }
    if "username" in r {
      var c :| c in conflicts && c.Name() == "username";
      assert c == Username;
    }
    assert r.Keys <= {"email", "username"};
    assert |{"email", "username"}| == 2;
    SubsetCardinality(r.Keys, {"email", "username"});
  }

  lemma SubsetCardinality(a: set<string>, b: set<string>)
    requires a <= b
    ensures |a| <= |b|
  {
    assert b == a + (b - a);
  }
}
