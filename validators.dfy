/**
 * The contact-form schema: an object whose `email` is a string in e-mail
 * format and whose `message` is a string of at least five characters that
 * is also non-empty. The e-mail format test belongs to the validation
 * library and is a predicate parameter.
 */
module Validators {
  import opened ZodErrors

  /** A JSON value as far as the schema distinguishes it. */
  datatype JsValue = JsString(s: string) | JsOther

  /** The parsed request body: an object with named fields, or anything else. */
  datatype Payload = JsObject(fields: map<string, JsValue>) | NotAnObject

  datatype ContactInput = ContactInput(email: string, message: string)

  datatype ParseResult = Success(data: ContactInput) | Failure(issues: seq<Issue>)

  /** The custom message of the `min(5)` check. */
  const NotEnoughCharacters: string := "not enough characters"

  /** Stand-ins for the library's default messages. */
  const InvalidTypeMessage: string := "Invalid input"
  const InvalidEmailMessage: string := "Invalid email address"
  const TooSmallMessage: string := "Too small"

  const MinMessageLength: nat := 5

  /** The issues of the `email` field: not a string, or not in e-mail format. */
  function EmailIssues(v: JsValue, isEmail: string -> bool): (r: seq<Issue>)
    ensures r == [] <==> v.JsString? && isEmail(v.s)
    ensures forall i :: 0 <= i < |r| ==> r[i].path == ["email"]
  {
    match v
    case JsOther => [Issue(["email"], InvalidTypeMessage)]
    case JsString(s) => if isEmail(s) then [] else [Issue(["email"], InvalidEmailMessage)]
  }

  /** The issues of the `message` field. Both length checks run on a string,
      so the empty string fails both, `min(5)` first. */
  function MessageIssues(v: JsValue): (r: seq<Issue>)
    ensures r == [] <==> v.JsString? && |v.s| >= MinMessageLength
    ensures forall i :: 0 <= i < |r| ==> r[i].path == ["message"]
  {
    match v
    case JsOther => [Issue(["message"], InvalidTypeMessage)]
    case JsString(s) =>
      (if |s| < MinMessageLength then [Issue(["message"], NotEnoughCharacters)] else [])
      + (if |s| == 0 then [Issue(["message"], TooSmallMessage)] else [])
  }

  /** A missing field reads as `undefined`, which is not a string. */
  function Field(fields: map<string, JsValue>, name: string): JsValue
  {
    if name in fields then fields[name] else JsOther
  }

  /** `connectPostSchema.safeParse`: the issues of both fields, `email`
      first, or the two strings when there are none. */
  function ConnectPostSchema(payload: Payload, isEmail: string -> bool): (r: ParseResult)
    ensures r.Success? <==>
      && payload.JsObject?
      && Field(payload.fields, "email").JsString?
      && isEmail(Field(payload.fields, "email").s)
      && Field(payload.fields, "message").JsString?
      && |Field(payload.fields, "message").s| >= MinMessageLength
    ensures r.Success? ==>
      && r.data.email == Field(payload.fields, "email").s
      && r.data.message == Field(payload.fields, "message").s
    ensures r.Failure? ==> r.issues != []
  {
    match payload
    case NotAnObject => Failure([Issue([], InvalidTypeMessage)])
    case JsObject(fields) =>
      var email := Field(fields, "email");
      var message := Field(fields, "message");
      var issues := EmailIssues(email, isEmail) + MessageIssues(message);
      if issues == [] then Success(ContactInput(email.s, message.s)) else Failure(issues)
  }

  /** A message shorter than five characters is rejected, with an issue on
      `message` carrying "not enough characters", whatever the e-mail. */
  lemma ShortMessageRejected(fields: map<string, JsValue>, isEmail: string -> bool)
    requires Field(fields, "message").JsString? && |Field(fields, "message").s| < MinMessageLength
    ensures var r := ConnectPostSchema(JsObject(fields), isEmail);
      && r.Failure?
      && exists i :: 0 <= i < |r.issues| && r.issues[i] == Issue(["message"], NotEnoughCharacters)
  {
    var r := ConnectPostSchema(JsObject(fields), isEmail);
    var e := EmailIssues(Field(fields, "email"), isEmail);
    assert r.issues[|e|] == Issue(["message"], NotEnoughCharacters);
  }

  /** Every accepted message is non-empty and satisfies the e-mail check:
      the `min(5)` check makes `nonempty` redundant. */
  lemma AcceptedIsNonEmpty(payload: Payload, isEmail: string -> bool)
    requires ConnectPostSchema(payload, isEmail).Success?
    ensures var d := ConnectPostSchema(payload, isEmail).data;
      d.message != [] && isEmail(d.email)
  {
  }

  /** An empty message fails both length checks; once the issues are
      flattened into a field map, the second, the library's default message,
      is the one shown for `message`. */
  lemma EmptyMessageShowsDefault(fields: map<string, JsValue>, isEmail: string -> bool)
    requires Field(fields, "message") == JsString("")
    ensures var r := ConnectPostSchema(JsObject(fields), isEmail);
      && r.Failure?
      && "message" in Flatten(r.issues)
      && Flatten(r.issues)["message"] == TooSmallMessage
  {
    var r := ConnectPostSchema(JsObject(fields), isEmail);
    var e := EmailIssues(Field(fields, "email"), isEmail);
    var n := |r.issues|;
    assert n == |e| + 2;
    assert r.issues[n - 1] == Issue(["message"], TooSmallMessage);
    FlattenLastWins(r.issues, n - 1);
  }
}
