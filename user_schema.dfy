/** A user profile (`users` collection, document id = uid). */
module UserSchema {
  import opened Common

  /**
   * A stored user document. `username` is the document's `username` field,
   * which sign-up writes and `check_username_availability` queries. The
   * pydantic model `UserInDB` the services load documents into declares no
   * such field; the model keeps it, as the services evidently intend.
   */
  datatype User = User(
    uid: string,
    username: Option<string>,
    email: string,
    displayName: string,
    profileImageUrl: Option<string>,
    fcmTokens: seq<string>,
    createdAt: Time,
    updatedAt: Time)

  /** The profile update (`UserUpdate`): only the supplied fields change. */
  datatype UserUpdate = UserUpdate(displayName: Option<string>, profileImageUrl: Option<string>)

  /**
   * The name a notification shows (`display_name or username`). A stored
   * display name has at least one character, so the display name is what
   * is shown; the other branches only cover documents that break that
   * rule, which the service would not load.
   */
  function SenderName(u: User): (name: string)
    ensures u.displayName != [] ==> name == u.displayName
    ensures u.displayName == [] && u.username.Some? ==> name == u.username.value
  {
    if u.displayName != [] then u.displayName
    else if u.username.Some? then u.username.value
    else ""
  }
}
