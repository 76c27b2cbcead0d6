/**
 * The navigation bar: its mount effect that reads the user and a role label,
 * and the values it derives for display (active link, avatar initial, role).
 */
module Navbar {
  import opened Wrappers
  import opened Auth
  import opened Strings

  const EmployeeLabel := "Employee"
  const FarmerLabel := "Farmer"
  const DashboardPath := "/dashboard"
  const ProductsPath := "/products"
  const LoginPath := "/login"

  /** The label shown for a profile role: "Employee" for exactly "employee", "Farmer" for any other. */
  function RoleLabel(role: string): (text: string)
    ensures text == EmployeeLabel <==> role == "employee"
    ensures text == EmployeeLabel || text == FarmerLabel
  {
    if role == "employee" then EmployeeLabel else FarmerLabel
  }

  /** `userRole || "Farmer"`: the role shown, with "Farmer" standing in for a missing one. */
  function RoleShown(userRole: Option<string>): (shown: string)
    ensures Truthy(userRole) ==> shown == userRole.value
    ensures !Truthy(userRole) ==> shown == FarmerLabel
    ensures shown != ""
  {
    if Truthy(userRole) then userRole.value else FarmerLabel
  }

  /** `isActive(path)`: the link for `path` is highlighted. */
  predicate IsActive(pathname: string, path: string)
  {
    pathname == path
  }

  /** At most one of the two navigation links is highlighted. */
  lemma OneActiveLink(pathname: string)
    ensures !(IsActive(pathname, DashboardPath) && IsActive(pathname, ProductsPath))
  {
  }

  /**
   * `user?.email?.[0]?.toUpperCase() || "U"`: a one-character string, the
   * first character of the email upper-cased, or "U" when there is no user,
   * no email or an empty email.
   */
  function AvatarInitial(user: Option<User>): (initial: string)
    ensures |initial| == 1 && !IsAsciiLower(initial[0])
    ensures user.None? || user.value.email.None? || user.value.email.value == "" ==> initial == "U"
    ensures user.Some? && user.value.email.Some? && user.value.email.value != "" ==>
              LowerChar(initial[0]) == LowerChar(user.value.email.value[0])
  {
    if user.Some? && user.value.email.Some? && user.value.email.value != "" then
      [UpperChar(user.value.email.value[0])]
    else
      "U"
  }

  class NavbarState {
    var user: Option<User>
    var userRole: Option<string>
    var isProfileOpen: bool
    /** `location.pathname` */
    var pathname: string

    /** The stored role is only ever a label. */
    ghost predicate Valid()
      reads this
    {
      userRole.None? || userRole.value == EmployeeLabel || userRole.value == FarmerLabel
    }

    /** The bar as first rendered at `pathname`. */
    constructor (path: string)
      ensures Valid()
      ensures user.None? && userRole.None? && !isProfileOpen && pathname == path
    {
      user, userRole, isProfileOpen, pathname := None, None, false, path;
    }

    /** The role line of the profile menu: always "Employee" or "Farmer". */
    function DisplayedRole(): (shown: string)
      reads this
      requires Valid()
      ensures shown == EmployeeLabel || shown == FarmerLabel
      ensures userRole.None? ==> shown == FarmerLabel
      ensures userRole.Some? ==> shown == userRole.value
    {
      RoleShown(userRole)
    }

    function Avatar(): (initial: string)
      reads this
      ensures |initial| == 1
      ensures user.None? || user.value.email.None? || user.value.email.value == "" ==> initial == "U"
      ensures user.Some? && user.value.email.Some? && user.value.email.value != "" ==>
                initial == [UpperChar(user.value.email.value[0])]
    {
      AvatarInitial(user)
    }

    /**
     * The mount effect `getUser`. It has no `catch`: a thrown session call
     * leaves everything as it was. Otherwise the user is stored and, for a
     * signed-in user only, the profile is looked up (`lookup` is the id asked
     * for); a truthy role is stored as its label, and a failed lookup or a
     * missing role leaves the role unset.
     */
    method GetUser(session: Session, profile: ProfileReply) returns (lookup: Option<string>)
      requires Valid()
      modifies this
      ensures Valid()
      ensures user == (if session.Resolved? then session.user else old(user))
      ensures lookup == (if SignedIn(session).Some? then Some(SignedIn(session).value.id) else None)
      ensures userRole ==
                if lookup.Some? && profile.ProfileRow? && Truthy(profile.role)
                then Some(RoleLabel(profile.role.value)) else old(userRole)
      ensures isProfileOpen == old(isProfileOpen) && pathname == old(pathname)
      ensures old(userRole).None? && (lookup.None? || profile.ProfileFailed? || !Truthy(profile.role)) ==>
                DisplayedRole() == FarmerLabel
    {
      lookup := None;
      if session.Resolved? {
        user := session.user;
        if session.user.Some? {
          lookup := Some(session.user.value.id);
          if profile.ProfileFailed? {
            // the error is logged
          } else if Truthy(profile.role) {
            userRole := Some(RoleLabel(profile.role.value));
          }
        }
      }
    }

    /** Clicking the avatar opens or closes the profile menu. */
    method ToggleProfile()
      requires Valid()
      modifies this
      ensures Valid()
      ensures isProfileOpen == !old(isProfileOpen)
      ensures user == old(user) && userRole == old(userRole) && pathname == old(pathname)
    {
      isProfileOpen := !isProfileOpen;
    }

    /** `handleSignOut`: after the sign-out call the router moves to the login page. */
    method HandleSignOut()
      requires Valid()
      modifies this
      ensures Valid()
      ensures pathname == LoginPath
      ensures !IsActive(pathname, DashboardPath) && !IsActive(pathname, ProductsPath)
      ensures user == old(user) && userRole == old(userRole) && isProfileOpen == old(isProfileOpen)
    {
      pathname := LoginPath;
    }
  }
}
