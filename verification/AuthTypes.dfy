/** The vocabulary of the chain: what was presented, what one mechanism concludes, and why it may fail. */
module AuthTypes {
  import opened Wrappers
  import opened Cookies

  datatype Credential =
    | Bearer(token: string)
    | Basic(id: string, secret: string)
    | Other(scheme: string, value: string)
    | Malformed(scheme: string, detail: string)
    | NoCredential

  datatype AuthError =
    | Unauthenticated
    | InvalidCredential
    | MalformedCredential
    | ScopeDenied
    | Redirect(location: string, cookies: seq<CookieDirective>)
    | Unsupported
    | Upstream
    | Internal
  {
    function Status(): nat {
      match this
      case Unauthenticated => 401
      case InvalidCredential => 401
      case MalformedCredential => 400
      case ScopeDenied => 403
      case Redirect(_, _) => 302
      case Unsupported => 501
      case Upstream => 503
      case Internal => 500
    }
  }

  /** The status tells whose fault it is: the caller's with 401 for exactly the credentials that are missing or
      wrong, 400 for unreadable and 403 for insufficient ones; nobody's for a redirect; else the service's. */
  lemma StatusClasses(e: AuthError)
    ensures e.Status() == 401 <==> e.Unauthenticated? || e.InvalidCredential?
    ensures e.Status() == 400 <==> e.MalformedCredential?
    ensures e.Status() == 403 <==> e.ScopeDenied?
    ensures e.Status() == 302 <==> e.Redirect?
    ensures 500 <= e.Status() < 600 <==> e.Unsupported? || e.Upstream? || e.Internal?
    ensures e.Status() == 503 <==> e.Upstream?
    ensures e.Status() == 501 <==> e.Unsupported?
  {
  }

  /** What one authenticator answers: a `Verdict`, or an error. */
  datatype Verdict<U> = Authenticated(user: U) | NotApplicable | Failed(error: AuthError)

  function VerdictOf<U>(r: Result<U, AuthError>): Verdict<U> {
    match r case Ok(u) => Authenticated(u) case Err(e) => Failed(e)
  }
}
