/** UserSummary: the projection of a user to UUID, names and e-mail, and the readable name of a user. */
module UserSummary {
  import opened Common
  import StringUtils

  datatype UserSummary = UserSummary(uuid: Option<Uuid>, firstname: Option<string>, lastname: Option<string>, email: Option<string>)

  /** A String-typed property: its text, None for null. */
  function StringProperty(e: EntityState, name: string): Option<string>
  {
    if e.Get(name).Str? then Some(e.Get(name).s) else None
  }

  /** of: null for null, otherwise the user's UUID, first name, last name and e-mail. */
  function Of(user: Option<EntityState>): (r: Option<UserSummary>)
    ensures r.None? <==> user.None?
    ensures r.Some? ==> r.value.uuid == user.value.Uuid()
                        && r.value.firstname == StringProperty(user.value, "firstname")
                        && r.value.lastname == StringProperty(user.value, "lastname")
                        && r.value.email == StringProperty(user.value, "email")
  {
    if user.None? then None
    else
      var u := user.value;
      Some(UserSummary(u.Uuid(), StringProperty(u, "firstname"), StringProperty(u, "lastname"), StringProperty(u, "email")))
  }

  /** Summaries are equal when their UUIDs are (@EqualsAndHashCode(of = "uuid")). */
  predicate SameSummary(a: UserSummary, b: UserSummary)
  {
    a.uuid == b.uuid
  }

  /** buildReadableName: first and last name joined by a blank (nulls skipped), the user name when that is empty. */
  function BuildReadableName(firstname: Option<string>, lastname: Option<string>, userName: Option<string>): (r: Option<string>)
  {
    var readable := StringUtils.JoinNonNulls(" ", [firstname, lastname]);
    if readable == "" then userName else Some(readable)
  }

  /** The readable name for each combination of given names. */
  lemma ReadableNameCases(first: string, last: string, userName: Option<string>)
    ensures BuildReadableName(Some(first), Some(last), userName) == Some(first + " " + last)
    ensures first != "" ==> BuildReadableName(Some(first), None, userName) == Some(first)
    ensures last != "" ==> BuildReadableName(None, Some(last), userName) == Some(last)
    ensures BuildReadableName(None, None, userName) == userName
    ensures BuildReadableName(Some(""), None, userName) == userName
  {
    StringUtils.NonNullsPair(Some(first), Some(last), false);
    StringUtils.NonNullsPair(Some(first), None, false);
    StringUtils.NonNullsPair(None, Some(last), false);
    StringUtils.NonNullsPair(None, None, false);
    StringUtils.NonNullsPair(Some(""), None, false);
  }
}
