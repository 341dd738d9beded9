/** A cookie to set or clear, and the settings a service keeps for each of its cookies. */
module Cookies {
  import opened Wrappers

  datatype SameSite = Strict | Lax | NoRestriction

  /** `maxAge` counts nanoseconds, as a `Duration` does. */
  datatype CookieDirective = CookieDirective(
    name: string, value: string, path: Option<string>, domain: Option<string>, maxAge: Option<nat>,
    httpOnly: bool, secure: bool, sameSite: Option<SameSite>)

  const NANOS_PER_SECOND: nat := 1_000_000_000

  function SetDirective(name: string, value: string): CookieDirective {
    CookieDirective(name, value, None, None, None, true, true, Some(Lax))
  }

  function ClearDirective(name: string): CookieDirective {
    SetDirective(name, "").(maxAge := Some(0))
  }

  datatype CookieSettings = CookieSettings(
    name: string, path: string, domain: Option<string>, maxAge: nat, secure: bool, sameSite: Option<SameSite>)
  {
    function Set(value: string): CookieDirective {
      SetDirective(name, value).(
        path := Some(path), domain := domain, maxAge := Some(maxAge), httpOnly := true, secure := secure,
            sameSite := sameSite)
    }

    function Clear(): CookieDirective {
      ClearDirective(name).(path := Some(path), domain := domain, secure := secure, sameSite := sameSite)
    }
  }
}
