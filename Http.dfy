/** The responses the backend's auth handlers and middleware send: a status
    code and one of the JSON bodies they build. */
module Http {
  import opened Common
  import opened Users

  datatype Body =
    | Message(message: string)                                   // { message }
    | Registered(message: string, token: Token, user: Profile)   // { message, token, user }
    | LoggedIn(message: string, token: Token, user: Profile,
               rememberMe: Option<bool>)                         // { message, token, user, rememberMe }
    | Verified(verifiedUser: Option<Profile>)                    // { valid: true, user }
    | Rejected(message: string)                                  // { valid: false, message }

  datatype Response = Response(status: nat, body: Body)
}
