/** The domain events the authentication service publishes. Each event
    class is one case of a closed variant. */
module AuthenticationEvents {
  import opened Results

  /** The `TYPE` tag of `UserRegistered`. */
  const UserRegisteredType: string := "user.registered"

  datatype Event =
    | UserRegistered(email: string, verificationToken: string)
    | PasswordForgotten(email: string, passwordResetToken: string)
    | PasswordChanged(email: string)
  {
    /** The event's `TYPE` tag, where this model fixes it: the tags of
        `PasswordForgotten` and `PasswordChanged` are not part of it. */
    function Type(): (t: Option<string>)
      ensures t == Some(UserRegisteredType) <==> UserRegistered?
    {
      if UserRegistered? then Some(UserRegisteredType) else None
    }
  }
}
