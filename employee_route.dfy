/**
 * The guard that lets only employees see its children: a mount effect that
 * fills in `user`, `userRole` and `loading`, and a render decision over them.
 */
module EmployeeRoute {
  import opened Wrappers
  import opened Auth

  const EmployeeRole := "employee"
  const DashboardPath := "/dashboard"

  /** What the guard renders. */
  datatype View = Spinner | Redirect(to: string) | Children

  /** The guard's authorization test: a signed-in user whose role is exactly "employee". */
  predicate IsEmployee(user: Option<User>, userRole: Option<string>)
    ensures user.None? || userRole.None? ==> !IsEmployee(user, userRole)
  {
    user.Some? && userRole == Some(EmployeeRole)
  }

  /**
   * The render decision: a spinner while loading, then the children for an
   * employee and a redirect to the dashboard for everyone else.
   */
  function Decide(loading: bool, user: Option<User>, userRole: Option<string>): (v: View)
    ensures v.Spinner? <==> loading
    ensures v.Children? <==> !loading && IsEmployee(user, userRole)
    ensures v.Redirect? <==> !loading && !IsEmployee(user, userRole)
    ensures v.Redirect? ==> v.to == DashboardPath
  {
    if loading then Spinner
    else if user.None? || userRole != Some(EmployeeRole) then Redirect(DashboardPath)
    else Children
  }

  class EmployeeGate {
    var user: Option<User>
    var userRole: Option<string>
    var loading: bool

    /** The guard as first rendered: no user, no role, loading. */
    constructor ()
      ensures user.None? && userRole.None? && loading
      ensures Render() == Spinner
    {
      user, userRole, loading := None, None, true;
    }

    function Render(): (v: View)
      reads this
      ensures v.Spinner? <==> loading
      ensures v.Children? <==> !loading && IsEmployee(user, userRole)
      ensures v.Redirect? <==> !loading && !IsEmployee(user, userRole)
      ensures v.Redirect? ==> v.to == DashboardPath
    {
      Decide(loading, user, userRole)
    }

    /**
     * The mount effect `getUser`. The user is stored when the session call
     * resolves; only then, and only for a signed-in user, is that user's
     * profile looked up (`lookup` is the id asked for). The role is stored
     * only when the lookup succeeds with a truthy role. Whatever happens,
     * including a thrown session call, loading ends.
     */
    method GetUser(session: Session, profile: ProfileReply) returns (lookup: Option<string>)
      modifies this
      ensures !loading
      ensures user == (if session.Resolved? then session.user else old(user))
      ensures lookup == (if SignedIn(session).Some? then Some(SignedIn(session).value.id) else None)
      ensures userRole ==
                if lookup.Some? && profile.ProfileRow? && Truthy(profile.role) then profile.role else old(userRole)
      ensures old(userRole).None? && (lookup.None? || profile.ProfileFailed?) ==>
                Render() == Redirect(DashboardPath)
    {
      lookup := None;
      if session.Threw? {
        // the `catch` logs the error
      } else {
        user := session.user;
        if session.user.Some? {
          lookup := Some(session.user.value.id);
          if profile.ProfileFailed? {
            // the error is logged
          } else if Truthy(profile.role) {
            userRole := profile.role;
          }
        }
      }
      loading := false;
    }
  }
}
