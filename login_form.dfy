/**
 * The demo login form: the length-only validation schema, and `onSubmit`,
 * which signs in whoever passes it with the role the form was opened for.
 */
module Login {
  import opened Wrappers
  import opened UserContext

  const UsernameTooShort: string := "Username must be at least 3 characters"
  const PasswordTooShort: string := "Password must be at least 6 characters"
  const SubmitFailed: string := "Invalid username or password. Please try again."

  /** One message shown under one field. */
  datatype FieldIssue = FieldIssue(field: string, message: string)

  /** `loginSchema`: every field whose length is under its minimum gets its message, in field order. */
  function LoginIssues(username: string, password: string): (issues: seq<FieldIssue>)
    ensures |issues| == (if |username| < 3 then 1 else 0) + (if |password| < 6 then 1 else 0)
    ensures |issues| == 2 ==> issues[0].field == "username"
    ensures issues == [] <==> |username| >= 3 && |password| >= 6
    ensures FieldIssue("username", UsernameTooShort) in issues <==> |username| < 3
    ensures FieldIssue("password", PasswordTooShort) in issues <==> |password| < 6
    ensures forall i :: 0 <= i < |issues| ==>
      issues[i] == FieldIssue("username", UsernameTooShort) || issues[i] == FieldIssue("password", PasswordTooShort)
  {
    (if |username| < 3 then [FieldIssue("username", UsernameTooShort)] else [])
    + (if |password| < 6 then [FieldIssue("password", PasswordTooShort)] else [])
  }

  /** The account the demo signs in: id 1, the typed username, and the form's role with its display name. */
  function DemoUser(role: Role, username: string): (u: SessionUser)
    ensures u.id == 1 && u.username == username && u.role == Some(role)
    ensures role == Student ==> u.name == "John Doe"
    ensures role == Teacher ==> u.name == "Prof. Sarah Taylor"
  {
    SessionUser(1, if role == Student then "John Doe" else "Prof. Sarah Taylor", username, Some(role))
  }

  /** The observable steps of a submit, in order. */
  datatype Effect = LoadingSet(on: bool) | ErrorSet(error: Option<string>) | UserSet(user: SessionUser) | SuccessCalled

  class LoginForm {
    const role: Role
    var isLoading: bool
    var error: Option<string>

    constructor (role: Role)
      ensures this.role == role && !isLoading && error == None
    {
      this.role := role;
      isLoading := false;
      error := None;
    }

    /**
     * `onSubmit`: no credential is checked. The user is set, then `onSuccess` is
     * called; if that callback throws, the error line is set. Loading ends false.
     */
    method OnSubmit(ctx: UserProvider, username: string, onSuccessThrows: bool) returns (trace: seq<Effect>)
      modifies this, ctx
      ensures ctx.user == Some(DemoUser(role, username)) && ctx.IsAuthenticated()
      ensures !isLoading
      ensures error == if onSuccessThrows then Some(SubmitFailed) else None
      ensures trace == [LoadingSet(true), ErrorSet(None), UserSet(DemoUser(role, username)), SuccessCalled]
                       + (if onSuccessThrows then [ErrorSet(Some(SubmitFailed))] else [])
                       + [LoadingSet(false)]
    {
      isLoading := true;
      error := None;
      trace := [LoadingSet(true), ErrorSet(None)];
      var u := DemoUser(role, username);
      ctx.SetUser(Some(u));
      trace := trace + [UserSet(u), SuccessCalled];
      if onSuccessThrows {
        error := Some(SubmitFailed);
        trace := trace + [ErrorSet(error)];
      }
      isLoading := false;
      trace := trace + [LoadingSet(false)];
    }

    /**
     * `form.handleSubmit(onSubmit)`: a failing schema shows its messages and
     * changes nothing else; a passing one runs `onSubmit`.
     */
    method Submit(ctx: UserProvider, username: string, password: string, onSuccessThrows: bool)
      returns (issues: seq<FieldIssue>, trace: seq<Effect>)
      modifies this, ctx
      ensures issues == LoginIssues(username, password)
      ensures issues != [] ==> trace == [] && ctx.user == old(ctx.user) && isLoading == old(isLoading) && error == old(error)
      ensures issues == [] ==> ctx.user == Some(DemoUser(role, username)) && !isLoading
      ensures issues == [] ==> error == if onSuccessThrows then Some(SubmitFailed) else None
      ensures issues == [] ==>
        trace == [LoadingSet(true), ErrorSet(None), UserSet(DemoUser(role, username)), SuccessCalled]
                 + (if onSuccessThrows then [ErrorSet(Some(SubmitFailed))] else [])
                 + [LoadingSet(false)]
    {
      issues := LoginIssues(username, password);
      if issues != [] {
        return issues, [];
      }
      trace := OnSubmit(ctx, username, onSuccessThrows);
    }
  }

  /** Any username of three or more characters with a password of six or more signs in; nothing is compared. */
  method AnyLongEnoughCredentials(role: Role, username: string, password: string) returns (signedIn: Option<SessionUser>)
    requires |username| >= 3 && |password| >= 6
    ensures signedIn == Some(DemoUser(role, username))
  {
    var ctx := new UserProvider();
    var form := new LoginForm(role);
    var issues, trace := form.Submit(ctx, username, password, false);
    signedIn := ctx.user;
  }
}
