/**
 * The front end's session context (`UserProvider`): one nullable `user` cell,
 * the derived `isAuthenticated`, and the `logout` and `setRole` actions.
 */
module UserContext {
  import opened Wrappers

  datatype Role = Student | Teacher

  /** The session's user; its role may be `null` (`None`). */
  datatype SessionUser = SessionUser(id: int, name: string, username: string, role: Option<Role>)

  /**
   * The user `setRole(role)` writes: the same id, the new role, and the demo
   * profile of that role (a `null` role takes the teacher's profile).
   */
  function WithRole(u: SessionUser, role: Option<Role>): (r: SessionUser)
    ensures r.id == u.id && r.role == role
    ensures role == Some(Student) ==> r.name == "John" && r.username == "john_student"
    ensures role != Some(Student) ==> r.name == "Prof. Taylor" && r.username == "prof_taylor"
  {
    var student := role == Some(Student);
    SessionUser(u.id, if student then "John" else "Prof. Taylor", if student then "john_student" else "prof_taylor", role)
  }

  /** Setting the same role twice is the same as setting it once. */
  lemma WithRoleIdempotent(u: SessionUser, role: Option<Role>)
    ensures WithRole(WithRole(u, role), role) == WithRole(u, role)
  {
  }

  /** After `setRole`, only the id of the previous user survives: two users given the same role differ at most in id. */
  lemma WithRoleForgetsProfile(u: SessionUser, v: SessionUser, role: Option<Role>)
    requires u.id == v.id
    ensures WithRole(u, role) == WithRole(v, role)
  {
  }

  class UserProvider {
    var user: Option<SessionUser>

    /** Initially nobody is signed in. */
    constructor ()
      ensures user == None && !IsAuthenticated()
    {
      user := None;
    }

    /** `isAuthenticated`: a user is set and its role is not `null`. */
    predicate IsAuthenticated()
      reads this
      ensures IsAuthenticated() ==> user.Some? && user.value.role.Some?
      ensures user.Some? && user.value.role.Some? ==> IsAuthenticated()
    {
      user.Some? && user.value.role.Some?
    }

    /** `setUser(u)` */
    method SetUser(u: Option<SessionUser>)
      modifies this
      ensures user == u
      ensures IsAuthenticated() <==> u.Some? && u.value.role.Some?
    {
      user := u;
    }

    /** `logout()`: no user, and therefore not authenticated. */
    method Logout()
      modifies this
      ensures user == None && !IsAuthenticated()
    {
      user := None;
    }

    /** `setRole(role)`: nothing without a user; otherwise the user is rewritten for the role. */
    method SetRole(role: Option<Role>)
      modifies this
      ensures old(user).None? ==> user == None
      ensures old(user).Some? ==> user == Some(WithRole(old(user).value, role))
      ensures IsAuthenticated() <==> old(user).Some? && role.Some?
    {
      if user.None? {
        return;
      }
      user := Some(WithRole(user.value, role));
    }
  }

  /** Calling `setRole` twice with one role leaves the same user as calling it once. */
  method SetRoleTwice(ctx: UserProvider, role: Option<Role>) returns (once: Option<SessionUser>, twice: Option<SessionUser>)
    modifies ctx
    ensures once == twice
  {
    ctx.SetRole(role);
    once := ctx.user;
    ctx.SetRole(role);
    twice := ctx.user;
    if once.Some? {
      WithRoleIdempotent(once.value, role);
    }
  }
}
