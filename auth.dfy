/**
 * What the pages and guards learn from the hosted session provider and the
 * `profiles` table. The backend itself is not modelled: each call becomes the
 * reply it can give, passed in as a parameter.
 */
module Auth {
  import opened Wrappers

  /** The signed-in user as the session provider reports it. */
  datatype User = User(id: string, email: Option<string>)

  /** The outcome of `supabase.auth.getUser()`: it either throws or resolves to a user or to `null`. */
  datatype Session = Threw | Resolved(user: Option<User>)

  /** The outcome of `from("profiles").select("role").eq("id", ...).single()`. */
  datatype ProfileReply = ProfileFailed | ProfileRow(role: Option<string>)

  /** JavaScript truthiness of an optional string: present and not empty. */
  predicate Truthy(s: Option<string>)
  {
    s.Some? && s.value != ""
  }

  /** The user a resolved session hands over; a thrown call hands over nothing. */
  function SignedIn(session: Session): Option<User>
  {
    if session.Resolved? then session.user else None
  }
}
