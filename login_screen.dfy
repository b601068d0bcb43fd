/**
 * The login screen: the checks run when the login button is pressed,
 * when the button is disabled, and what a Google sign-in response does.
 */
module LoginScreen {
  import opened Wrappers
  import opened JsText
  import opened Feedback

  const EmptyLoginField: string := "Email atau username tidak boleh kosong"
  const EmptyPassword: string := "Password tidak boleh kosong"
  const GoogleComingSoon: string := "Google Sign In akan segera tersedia"

  /** What the screen does in reply to the user: show a message, or call `signIn` with these arguments. */
  datatype LoginEffect =
    | Show(toast: Toast)
    | CallSignIn(loginField: string, password: string)

  /** The result of the Google authentication prompt: its `type` and the `id_token` parameter. */
  datatype GoogleResponse = GoogleResponse(kind: string, idToken: string)

  /** `handleLogin`: a blank login field, then a blank password, refuse; otherwise sign in. */
  function HandleLogin(loginField: string, password: string): (effect: LoginEffect)
    ensures effect.CallSignIn? <==> Trim(loginField) != "" && Trim(password) != ""
    ensures Trim(loginField) == "" ==> effect == Show(ErrorToast(EmptyLoginField))
    ensures Trim(loginField) != "" && Trim(password) == "" ==> effect == Show(ErrorToast(EmptyPassword))
  {
    if Trim(loginField) == "" then Show(ErrorToast(EmptyLoginField))
    else if Trim(password) == "" then Show(ErrorToast(EmptyPassword))
    else CallSignIn(Trim(loginField), password)
  }

  /**
   * What `signIn` receives: the login field, trimmed (non-empty and without
   * surrounding white space), and the password exactly as typed.
   */
  lemma SignInArguments(loginField: string, password: string)
    requires HandleLogin(loginField, password).CallSignIn?
    ensures var effect := HandleLogin(loginField, password);
      && effect.loginField == Trim(loginField) && effect.loginField != ""
      && !IsWhiteSpace(effect.loginField[0]) && !IsWhiteSpace(effect.loginField[|effect.loginField| - 1])
      && effect.password == password
  {
    var t := Trim(loginField);
    assert t != "" && Trim(password) != "";
    assert HandleLogin(loginField, password) == CallSignIn(t, password);
    assert !IsWhiteSpace(t[0]) && !IsWhiteSpace(t[|t| - 1]);
  }

  /**
   * When the login button is disabled. Whenever the handler would call
   * `signIn` and nothing is loading, the button is enabled.
   */
  predicate LoginDisabled(loginField: string, password: string, isLoading: bool)
    ensures HandleLogin(loginField, password).CallSignIn? && !isLoading ==>
      !LoginDisabled(loginField, password, isLoading)
  {
    assert Trim("") == "";
    loginField == "" || password == "" || isLoading
  }

  /**
   * An enabled button does not guarantee a call to `signIn`: a non-empty
   * login field of white space only passes the button and is refused by
   * the handler.
   */
  lemma LoginButtonAndHandler(loginField: string, password: string)
    ensures loginField != "" && AllWhiteSpace(loginField) && password != "" ==>
      && !LoginDisabled(loginField, password, false)
      && HandleLogin(loginField, password) == Show(ErrorToast(EmptyLoginField))
  {
  }

  /** `handleGoogleSignIn`: only an information message, whatever the token. */
  function HandleGoogleSignIn(idToken: string): (effect: LoginEffect)
    ensures !effect.CallSignIn?
    ensures effect.toast.kind == Info && effect.toast.description == GoogleComingSoon
  {
    Show(Toast("Info", GoogleComingSoon, Info))
  }

  /**
   * The effect run when the Google prompt answers: for a success, the
   * information message of `handleGoogleSignIn` and never a sign-in;
   * nothing for any other answer.
   */
  function OnGoogleResponse(response: Option<GoogleResponse>): (effect: Option<LoginEffect>)
    ensures effect.Some? <==> response.Some? && response.value.kind == "success"
    ensures effect.Some? ==> effect.value.Show? && effect.value.toast.kind == Info
  {
    if response.Some? && response.value.kind == "success" then Some(HandleGoogleSignIn(response.value.idToken))
    else None
  }
}
