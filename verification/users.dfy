/** Identifiers shared by the session and registration models. */
module Users {

  /** The identity provider's user id; the store keys a user's profile and tasks by it. */
  type Uid = string
}
