/**
 * The decisions of the HTTP route layer: login, registration, user lookup, the
 * assistant route's input check and error swallowing, and the mapping of the
 * other AI routes onto 200 or 500. Status codes carry their meanings from
 * section 15 of RFC 9110 (200 OK, 201 Created, 400 Bad Request,
 * 401 Unauthorized, 404 Not Found, 500 Internal Server Error).
 */
module Routes {
  import opened Wrappers
  import opened JsText
  import opened IdMaps
  import opened Storage
  import opened OpenAiService

  /** A user as sent to clients: `{ ...user, password: undefined }` serialises without the password. */
  datatype PublicUser = PublicUser(id: int, username: string, name: string, role: string, createdAt: int)

  /** The JSON bodies the routes send. */
  datatype Body =
    | UserBody(user: PublicUser)
    | MessageBody(message: string)
    | InvalidDataBody
    | AnswerBody(response: string)
    | JsonBody(value: Json)
    | ErrorBody(message: string, error: string)

  datatype Response = Response(status: int, body: Body)

  /** A field of a JSON request body: absent, a string, or any other JSON value. */
  datatype JsonField = Absent | JsonString(text: string) | OtherValue

  const InvalidCredentials: string := "Invalid credentials"
  const UsernameTaken: string := "Username already exists"
  const UserNotFound: string := "User not found"
  const InvalidQuestion: string := "Invalid request. Please provide a question string."
  const RouteApology: string := "I apologize, but I'm having trouble processing your request right now. Please try again in a few moments."

  /** Drops the password and keeps every other field. */
  function Redact(u: User): (p: PublicUser)
    ensures p.id == u.id && p.username == u.username && p.name == u.name
    ensures p.role == u.role && p.createdAt == u.createdAt
  {
    PublicUser(u.id, u.username, u.name, u.role, u.createdAt)
  }

  /** `storage.getUserByUsername(field)`: a field that is not a string matches no stored username. */
  function LookupUsername(users: IdMap<User>, username: JsonField): (r: Option<User>)
    requires IdMaps.Valid(users)
    ensures !username.JsonString? ==> r.None?
    ensures r.Some? ==> r.value.username == username.text && r.value in Values(users)
    ensures username.JsonString? && r.None? ==> forall u :: u in Values(users) ==> u.username != username.text
  {
    if username.JsonString? then FindByUsername(Values(users), username.text) else None
  }

  /**
   * `POST /api/auth/login`: 200 with the redacted first user of that username when
   * the stored password is exactly the given one; otherwise 401 with one and the
   * same message, whether the name is unknown or the password wrong.
   */
  function Login(users: IdMap<User>, username: JsonField, password: JsonField): (r: Response)
    requires IdMaps.Valid(users)
    ensures r.status == 200 || r.status == 401
    ensures r.status == 401 <==> r.body == MessageBody(InvalidCredentials)
    ensures r.status == 200 <==>
      username.JsonString? && exists k :: IsFirstWithUsername(Values(users), username.text, k)
                                          && password == JsonString(Values(users)[k].password)
    ensures r.status == 200 ==> exists k :: IsFirstWithUsername(Values(users), username.text, k)
                                          && r.body == UserBody(Redact(Values(users)[k]))
  {
    var found := LookupUsername(users, username);
    if found.None? || password != JsonString(found.value.password) then
      Response(401, MessageBody(InvalidCredentials))
    else
      Response(200, UserBody(Redact(found.value)))
  }

  /** No two stored users share a username. */
  ghost predicate UniqueUsernames(users: seq<User>) {
    forall i, j :: 0 <= i < j < |users| ==> users[i].username != users[j].username
  }

  /** With unique usernames, login succeeds exactly when some stored user has this username and this password. */
  lemma LoginIffStoredCredentials(users: IdMap<User>, username: string, password: string)
    requires IdMaps.Valid(users) && UniqueUsernames(Values(users))
    ensures Login(users, JsonString(username), JsonString(password)).status == 200 <==>
      exists i :: 0 <= i < |Values(users)| && Values(users)[i].username == username && Values(users)[i].password == password
  {
    var vs := Values(users);
    var f := FindByUsername(vs, username);
    assert Login(users, JsonString(username), JsonString(password)).status == 200 <==> f.Some? && f.value.password == password;
    if f.Some? {
      var k :| IsFirstWithUsername(vs, username, k) && f.value == vs[k];
      forall i | 0 <= i < |vs| && vs[i].username == username
        ensures i == k
      {
      }
    }
  }

  /**
   * `GET /api/user/:id`: the id text goes through `parseInt`; 404 when that is `NaN`
   * or no user has that id, otherwise 200 with the redacted user.
   */
  function Lookup(users: IdMap<User>, idText: string): (r: Response)
    ensures r.status == 200 || r.status == 404
    ensures r.status == 404 <==> ParseInt(idText).None? || ParseInt(idText).value !in users.entries
    ensures r.status == 404 ==> r.body == MessageBody(UserNotFound)
    ensures r.status == 200 ==> r.body == UserBody(Redact(users.entries[ParseInt(idText).value]))
  {
    match ParseInt(idText)
    case None => Response(404, MessageBody(UserNotFound))
    case Some(id) =>
      match Get(users, id)
      case None => Response(404, MessageBody(UserNotFound))
      case Some(u) => Response(200, UserBody(Redact(u)))
  }

  /** An id written in decimal finds exactly the user stored under it, even with trailing non-digits ("/api/user/7abc"). */
  lemma LookupDecimalId(users: IdMap<User>, id: nat, rest: string)
    requires rest == [] || !IsDecimalDigit(rest[0])
    requires rest != [] && id == 0 ==> rest[0] != 'x' && rest[0] != 'X'
    ensures Lookup(users, ToDecimal(id) + rest).status == 200 <==> id in users.entries
    ensures id in users.entries ==> Lookup(users, ToDecimal(id) + rest) == Response(200, UserBody(Redact(users.entries[id])))
  {
    ParseIntDecimal(id, rest);
  }

  /** An id with no decimal digit in it is `NaN`, which matches no user: always 404. */
  lemma LookupNonNumeric(users: IdMap<User>, idText: string)
    requires forall i :: 0 <= i < |idText| ==> !IsDecimalDigit(idText[i])
    ensures Lookup(users, idText) == Response(404, MessageBody(UserNotFound))
  {
    ParseIntNeedsDigit(idText);
  }

  /** `!question || typeof question !== 'string'` rejects it: only a non-empty string passes. */
  predicate ValidQuestion(question: JsonField)
    ensures question.Absent? || question.OtherValue? || question == JsonString("") ==> !ValidQuestion(question)
    ensures question.JsonString? && question.text != "" ==> ValidQuestion(question)
  {
    question.JsonString? && question.text != ""
  }

  /**
   * `POST /api/ai/assistant` around a service call that may throw: 400 for a
   * missing, empty or non-string question; otherwise always 200, carrying the
   * service's answer, or the fixed apology when the service threw.
   */
  function AssistantRoute(question: JsonField, service: string -> Result<string, string>): (r: Response)
    ensures r.status == 400 <==> !ValidQuestion(question)
    ensures r.status == 400 || r.status == 200
    ensures r.status == 400 ==> r.body == MessageBody(InvalidQuestion)
    ensures r.status == 200 ==> r.body.AnswerBody?
    ensures r.status == 200 && service(question.text).Failure? ==> r.body == AnswerBody(RouteApology)
    ensures r.status == 200 && service(question.text).Success? ==> r.body == AnswerBody(service(question.text).value)
  {
    if !ValidQuestion(question) then Response(400, MessageBody(InvalidQuestion))
    else match service(question.text)
      case Success(answer) => Response(200, AnswerBody(answer))
      case Failure(_) => Response(200, AnswerBody(RouteApology))
  }

  /**
   * Wired to `answerQuestion`, which never throws, the route's apology is never
   * sent: a valid question always gets the service's own answer.
   */
  lemma AssistantRouteNeverApologises(question: JsonField, apiKey: Option<string>, completion: Completion)
    requires ValidQuestion(question)
    ensures AssistantRoute(question, q => AnswerQuestion(apiKey, q, completion))
         == Response(200, AnswerBody(AnswerQuestion(apiKey, question.text, completion).value))
  {
  }

  /** The AI routes that return the service's JSON, each with its own failure message. */
  datatype Feature = Calendar | MindMap | Summarize | Hint | Quiz | PlagiarismCheck | Suggestions

  /** Each JSON AI route's own 500 message, all of the form "Failed to ...". */
  function FailureMessage(f: Feature): (m: string)
    ensures |m| > 10 && m[..10] == "Failed to "
  {
    match f
    case Calendar => "Failed to generate calendar"
    case MindMap => "Failed to generate mind map"
    case Summarize => "Failed to summarize lecture"
    case Hint => "Failed to generate hint"
    case Quiz => "Failed to generate quiz"
    case PlagiarismCheck => "Failed to check plagiarism"
    case Suggestions => "Failed to generate suggestions"
  }

  /** The other AI routes: the service's JSON verbatim with 200, or 500 with the route's message and the error text. */
  function AiRoute(f: Feature, outcome: Result<Json, string>): (r: Response)
    ensures r.status == 200 <==> outcome.Success?
    ensures r.status == 200 || r.status == 500
    ensures outcome.Success? ==> r.body == JsonBody(outcome.value)
    ensures outcome.Failure? ==> r.body == ErrorBody(FailureMessage(f), outcome.error)
  {
    match outcome
    case Success(v) => Response(200, JsonBody(v))
    case Failure(e) => Response(500, ErrorBody(FailureMessage(f), e))
  }

  /** A model reply that is not JSON reaches the client as `{}` with status 200, not as an error. */
  lemma AiRouteUnparsableReply(f: Feature, text: string, parse: string -> Option<Json>)
    requires ReadsEmptyObject(parse) && parse(text).None?
    ensures AiRoute(f, JsonFeature(Content(Some(text)), parse)) == Response(200, JsonBody(EmptyObject))
  {
    JsonFeatureEmptyObject(Content(Some(text)), parse);
  }

  /**
   * `POST /api/auth/register`. `parsed` is the outcome of the opaque schema check
   * (`None` when it rejects the body). 400 for an invalid body or a taken
   * username, with the store untouched; otherwise the user is created and 201
   * carries it redacted. Usernames stay unique.
   */
  method Register(store: MemStorage, parsed: Option<InsertUser>, now: int) returns (r: Response)
    requires store.Valid()
    modifies store
    ensures store.Valid()
    ensures parsed.None? ==> r == Response(400, InvalidDataBody) && unchanged(store)
    ensures parsed.Some? && FindByUsername(old(Values(store.users)), parsed.value.username).Some? ==>
      r == Response(400, MessageBody(UsernameTaken)) && unchanged(store)
    ensures parsed.Some? && FindByUsername(old(Values(store.users)), parsed.value.username).None? ==>
      var u := User(old(store.currentId), parsed.value.username, parsed.value.password,
                    parsed.value.name, parsed.value.role, now);
      && r == Response(201, UserBody(Redact(u)))
      && store.currentId == old(store.currentId) + 1
      && store.users == Set(old(store.users), u.id, u)
      && Values(store.users) == old(Values(store.users)) + [u]
      && store.subjects == old(store.subjects) && store.lectures == old(store.lectures)
      && store.assignments == old(store.assignments) && store.submissions == old(store.submissions)
      && store.documents == old(store.documents) && store.studentProgress == old(store.studentProgress)
    ensures UniqueUsernames(old(Values(store.users))) ==> UniqueUsernames(Values(store.users))
  {
    if parsed.None? {
      return Response(400, InvalidDataBody);
    }
    var existing := store.GetUserByUsername(parsed.value.username);
    if existing.Some? {
      return Response(400, MessageBody(UsernameTaken));
    }
    var u := store.CreateUser(parsed.value, now);
    r := Response(201, UserBody(Redact(u)));
  }

  /** Registering the same valid body twice: the second attempt is refused and the first account is kept. */
  method RegisterTwice(store: MemStorage, data: InsertUser, now: int) returns (first: Response, second: Response)
    requires store.Valid()
    modifies store
    ensures store.Valid()
    ensures second == Response(400, MessageBody(UsernameTaken))
    ensures first.status == 201 || first == second
    ensures first.status == 201 ==>
      && first.body.UserBody? && first.body.user.id in store.users.entries
      && store.users.entries[first.body.user.id].password == data.password
      && |Values(store.users)| == |old(Values(store.users))| + 1
  {
    first := Register(store, Some(data), now);
    ghost var afterFirst := Values(store.users);
    FindAfterAppend(old(Values(store.users)), User(old(store.currentId), data.username, data.password, data.name, data.role, now), data.username);
    second := Register(store, Some(data), now);
  }
}
