// PIN protection (components/auth/AuthProvider.tsx): the session flag and
// stored password behind useAuth, and the login and change-password forms
// with the order in which they check their input.
module AuthProvider {
  import opened Wrappers

  const DefaultPassword := "Ting0409"
  const WrongPassword := "Mật khẩu không đúng"
  const MismatchError := "Mật khẩu mới không khớp"
  const TooShortError := "Mật khẩu mới phải có ít nhất 4 ký tự"
  const WrongOldPassword := "Mật khẩu cũ không đúng"

  /** `localStorage.getItem(PASSWORD_KEY) || DEFAULT_PASSWORD`: a missing or empty stored password means the default. */
  function EffectivePassword(stored: Option<string>): (r: string)
    ensures r != ""
    ensures stored.Some? && stored.value != "" ==> r == stored.value
    ensures stored.None? || stored.value == "" ==> r == DefaultPassword
  {
    if stored.Some? && stored.value != "" then stored.value else DefaultPassword
  }

  class Auth {
    var isAuthenticated: bool
    var isLoading: bool
    /** sessionStorage under the authentication key. */
    var session: Option<string>
    /** localStorage under the password key. */
    var storedPassword: Option<string>

    /** The hook before its effect has run: signed out and loading. */
    constructor (session: Option<string>, storedPassword: Option<string>)
      ensures !isAuthenticated && isLoading
      ensures this.session == session && this.storedPassword == storedPassword
    {
      isAuthenticated := false;
      isLoading := true;
      this.session := session;
      this.storedPassword := storedPassword;
    }

    /** The mount effect: signed in when the session flag is 'true'; loading ends. */
    method CheckSession()
      modifies this
      ensures isAuthenticated == (old(isAuthenticated) || session == Some("true"))
      ensures !isLoading && session == old(session) && storedPassword == old(storedPassword)
    {
      if session == Some("true") {
        isAuthenticated := true;
      }
      isLoading := false;
    }

    /** login: succeeds exactly for the effective password, and then marks the session; a failure changes nothing. */
    method Login(password: string) returns (ok: bool)
      modifies this
      ensures ok <==> password == EffectivePassword(old(storedPassword))
      ensures ok ==> isAuthenticated && session == Some("true")
      ensures !ok ==> isAuthenticated == old(isAuthenticated) && session == old(session)
      ensures storedPassword == old(storedPassword) && isLoading == old(isLoading)
    {
      var current := EffectivePassword(storedPassword);
      if password == current {
        session := Some("true");
        isAuthenticated := true;
        return true;
      }
      return false;
    }

    /** logout: the session flag is removed and the user signed out. */
    method Logout()
      modifies this
      ensures !isAuthenticated && session == None
      ensures storedPassword == old(storedPassword) && isLoading == old(isLoading)
    {
      session := None;
      isAuthenticated := false;
    }

    /** changePassword: the new password is stored exactly when the old one is the effective password. */
    method ChangePassword(oldPassword: string, newPassword: string) returns (ok: bool)
      modifies this
      ensures ok <==> oldPassword == EffectivePassword(old(storedPassword))
      ensures ok ==> storedPassword == Some(newPassword)
      ensures !ok ==> storedPassword == old(storedPassword)
      ensures isAuthenticated == old(isAuthenticated) && session == old(session) && isLoading == old(isLoading)
    {
      var current := EffectivePassword(storedPassword);
      if oldPassword == current {
        storedPassword := Some(newPassword);
        return true;
      }
      return false;
    }
  }

  /** The change-password form's checks, in order: the confirmation, then the length; None when both pass. */
  function FormError(newPassword: string, confirmPassword: string): (r: Option<string>)
    ensures newPassword != confirmPassword ==> r == Some(MismatchError)
    ensures newPassword == confirmPassword && |newPassword| < 4 ==> r == Some(TooShortError)
    ensures r.None? <==> newPassword == confirmPassword && |newPassword| >= 4
  {
    if newPassword != confirmPassword then Some(MismatchError)
    else if |newPassword| < 4 then Some(TooShortError)
    else None
  }

  /**
   * A password the change-password form accepts is never empty, so after
   * the change exactly that password logs in and the default no longer
   * does (unless it is the new password).
   */
  lemma AcceptedChangeLogsIn(newPassword: string, confirmPassword: string, attempt: string)
    requires FormError(newPassword, confirmPassword).None?
    ensures attempt == EffectivePassword(Some(newPassword)) <==> attempt == newPassword
    ensures newPassword != DefaultPassword ==> EffectivePassword(Some(newPassword)) != DefaultPassword
  {
  }

  class LoginForm {
    var password: string
    var showPassword: bool
    var error: string

    constructor ()
      ensures password == "" && !showPassword && error == ""
    {
      password := "";
      showPassword := false;
      error := "";
    }

    method SetPassword(value: string)
      modifies this
      ensures password == value && showPassword == old(showPassword) && error == old(error)
    {
      password := value;
    }

    method ToggleShowPassword()
      modifies this
      ensures showPassword == !old(showPassword) && password == old(password) && error == old(error)
    {
      showPassword := !showPassword;
    }

    /** handleSubmit: the error is cleared and login tried; a failure sets the error and clears the input. */
    method HandleSubmit(auth: Auth) returns (ok: bool)
      modifies this, auth
      ensures ok <==> old(password) == EffectivePassword(old(auth.storedPassword))
      ensures ok ==> auth.isAuthenticated && error == "" && password == old(password)
      ensures !ok ==> error == WrongPassword && password == "" && auth.isAuthenticated == old(auth.isAuthenticated)
      ensures auth.storedPassword == old(auth.storedPassword) && showPassword == old(showPassword)
    {
      error := "";
      ok := auth.Login(password);
      if !ok {
        error := WrongPassword;
        password := "";
      }
    }
  }

  class ChangePasswordForm {
    var oldPassword: string
    var newPassword: string
    var confirmPassword: string
    var error: string
    var success: bool

    constructor ()
      ensures oldPassword == "" && newPassword == "" && confirmPassword == "" && error == "" && !success
    {
      oldPassword := "";
      newPassword := "";
      confirmPassword := "";
      error := "";
      success := false;
    }

    method SetFields(oldValue: string, newValue: string, confirmValue: string)
      modifies this
      ensures oldPassword == oldValue && newPassword == newValue && confirmPassword == confirmValue
      ensures error == old(error) && success == old(success)
    {
      oldPassword, newPassword, confirmPassword := oldValue, newValue, confirmValue;
    }

    /**
     * handleSubmit: a mismatch or a short password is reported without
     * calling changePassword; otherwise the change is tried and either
     * succeeds or reports a wrong old password.
     */
    method HandleSubmit(auth: Auth) returns (changed: bool)
      modifies this, auth
      ensures var check := FormError(old(newPassword), old(confirmPassword));
        (check.Some? ==> !changed && error == check.value && success == old(success)
                         && auth.storedPassword == old(auth.storedPassword))
        && (check.None? ==> (changed <==> old(oldPassword) == EffectivePassword(old(auth.storedPassword))))
      ensures changed ==> success && error == "" && auth.storedPassword == Some(old(newPassword))
      ensures FormError(old(newPassword), old(confirmPassword)).None? && !changed ==>
        error == WrongOldPassword && success == old(success) && auth.storedPassword == old(auth.storedPassword)
      ensures auth.isAuthenticated == old(auth.isAuthenticated) && auth.session == old(auth.session)
      ensures oldPassword == old(oldPassword) && newPassword == old(newPassword) && confirmPassword == old(confirmPassword)
    {
      error := "";
      var check := FormError(newPassword, confirmPassword);
      if check.Some? {
        error := check.value;
        return false;
      }
      changed := auth.ChangePassword(oldPassword, newPassword);
      if changed {
        success := true;
      } else {
        error := WrongOldPassword;
      }
    }
  }
}
