# Ferry-ticket app: authentication session and screen logic, in Dafny

This project models the authentication session of a mobile ferry-ticket booking client, plus the small pieces of screen logic around it. It states and proves their properties.

- **Auth service** (`auth_service.dfy`, module `Auth`). This is a class over the secure store's entries (`token` and `user`). It has one method per backend operation: login, register, logout, get current user, refresh token and Google sign-in. Each backend call (a `fetch` followed by `response.json()`) is a parameter of type `Reply`: an ok response with its body, a not-ok response with its optional `message`, or a thrown error. A ghost `trace` records every store write, store deletion and request, in order. That makes "token before user", "no request without a token" and "nothing stored on failure" statable.
- **Auth context** (`auth_context.dfy`, module `AuthContext`). `Reduce` is the pure reducer over `{user, isLoading, isAuthenticated, error}`. `Replay` gives the state after any list of dispatched actions. The class `AuthProvider` holds the state and runs `checkAuthState`, `signIn`, `signUp`, `signInWithGoogle`, `signOut` and `clearError` as fixed sequences of dispatches around one service call. The call's `Outcome` is a parameter: resolved with a value, or rejected with an error message.
- **Login and register screens** (`login_screen.dfy`, `register_screen.dfy`). Each pre-submit handler is a function that returns either the failed check, which names the message shown, or the arguments passed to `signIn`/`signUp`. The button-disabled predicates are modelled too. The e-mail pattern `/^[^\s@]+@[^\s@]+\.[^\s@]+$/` is written as an executable predicate and proved equal to a reference definition of the pattern's language.
- **Booking history** (`booking_history.dfy`). This covers the tab filter, the status label and the status colour.
- **Home search form** (`home_screen.dfy`). This is a class with origin, destination and passengers. Its handlers are swap, the plus and minus buttons, location and popular-route selection, and search.
- **Shared pieces.** `js_text.dfy` holds the JavaScript string semantics the code relies on:
  - `trim` and `\s` use ECMAScript's white-space set;
  - `split` with one separator;
  - `length` counts UTF-16 code units;
  - truthiness and `a || b` on possibly missing strings.

  `feedback.dfy` holds the flash-message value, and `wrappers.dfy` holds `Option`/`Result`.

Behaviours of the code worth stating plainly:

- The store is written token first, then user. No pair is written atomically.
- A store holding only one of the two entries is not healed. `getCurrentUser` returns null and leaves it as it is.
- A transport failure during session validation leaves the stored credential in place. The session still ends signed out.
- Errors carry the backend's `message` or a fixed fallback. No field errors are concatenated, and there is no separate "cannot reach server" reason.
- Empty fields and password confirmation are checked only by the screens, never by the service.
- Nothing stops two operations from running at once, except buttons disabled while loading.

## Model

| member | source | states |
|---|---|---|
| `Auth.AuthService.Login` | src/services/auth.service.ts:34-60 | On an ok reply, returns the body and stores `token` then `user` (JSON of the user), in that order, after the request. On a not-ok reply, fails with the body's message, or 'Login failed' when it is missing or empty. On a thrown error, fails with that error. Neither failure touches the store. |
| `Auth.AuthService.Register` | src/services/auth.service.ts:62-88 | The same as login, with the registration request and the fallback 'Registration failed'. |
| `Auth.AuthService.Logout` | src/services/auth.service.ts:90-110 | Sends the logout request with the bearer token only when a non-empty token is stored. Always ends with both `token` and `user` deleted and every other entry unchanged. |
| `Auth.AuthService.GetCurrentUser` | src/services/auth.service.ts:112-141 | Without both entries non-empty: returns null, sends no request, changes nothing. Otherwise it validates the token. A not-ok reply logs out (logout request, both entries deleted) and returns null. An ok reply returns the backend's user without storing it. A thrown error returns null and leaves the store as it was. |
| `Auth.AuthService.RefreshToken` | src/services/auth.service.ts:143-170 | Without a token: returns null, no request. A not-ok reply logs out and returns null. An ok reply overwrites only `token` and returns the new token; `user` is untouched. A thrown error returns null and changes nothing. |
| `Auth.AuthService.GoogleSignIn` | src/services/auth.service.ts:173-182 | Always fails with 'Google Sign-in will be implemented later'. It has no modifies clause, so it never touches the store. |
| `Auth.Serialize` | src/services/auth.service.ts:53 | The stored user text is a JSON object (braces at both ends), so it is never empty. |
| `Auth.StoredSession` | src/services/auth.service.ts:52-53 | After a successful login or registration, the store holds the backend's token and the user's JSON. `getCurrentUser` then goes on to validate exactly when that token is non-empty. |
| `Auth.LogoutIdempotent` | src/services/auth.service.ts:105-108 | After one logout a second changes nothing. It sends no request, and the store holds no session. |
| `AuthContext.Reduce` | src/context/AuthContext.tsx:40-67 | Preserves `isAuthenticated ⇔ user ≠ null`. Only `SIGN_IN_SUCCESS` and `SIGN_OUT` change `user`/`isAuthenticated`, and both end with `isLoading` false and `error` null. |
| `AuthContext.ReduceFrames` | src/context/AuthContext.tsx:42-63 | `LOADING` sets `isLoading` and clears `error`. `ERROR` sets `error` and clears `isLoading`. `CLEAR_ERROR` clears only `error`. Nothing else changes. The two session actions set `user`/`isAuthenticated` as named. |
| `AuthContext.ReplayConsistent` | src/context/AuthContext.tsx:69-75 | Any sequence of dispatches from a consistent state, the initial one included, keeps `isAuthenticated ⇔ user ≠ null`. |
| `AuthContext.AuthProvider.constructor` | src/context/AuthContext.tsx:70-75 | Starts loading, signed out, with no error and nothing dispatched. |
| `AuthContext.AuthProvider.Dispatch` | src/context/AuthContext.tsx:70 | The held state becomes the reducer's result and stays the replay of all dispatched actions. |
| `AuthContext.AuthProvider.CheckAuthState` | src/context/AuthContext.tsx:82-98 | Always ends not loading and without error. Signed in exactly when the service returned a user, with that user. Signed out when it returned none or raised. |
| `AuthContext.AuthProvider.SignIn` | src/context/AuthContext.tsx:100-125 | Calls the login service with the field and the password. On success the state is exactly the response's user, authenticated, not loading, no error. On failure the error is the message, or 'Login gagal' when it is empty; `user`/`isAuthenticated` stay as they were and `isLoading` is false. |
| `AuthContext.AuthProvider.SignUp` | src/context/AuthContext.tsx:127-153 | The same as sign-in, with fallback 'Registrasi gagal'. The register call receives only the e-mail, password and confirmation; the name is not sent. |
| `AuthContext.AuthProvider.SignInWithGoogle` | src/context/AuthContext.tsx:155-177 | The same as sign-in, with fallback 'Google login gagal', calling the Google login with the token and user info. |
| `AuthContext.AuthProvider.SignOut` | src/context/AuthContext.tsx:179-195 | Ends signed out, not loading, without error, whether or not the logout call raises. |
| `AuthContext.AuthProvider.ClearError` | src/context/AuthContext.tsx:197-199 | Only `error` changes, to null. |
| `JsText.Trim` | src/screens/auth/LoginScreen.tsx:55 | The result is empty exactly when the input is all white space. Otherwise it starts and ends with non-white-space. A string without white space is unchanged. |
| `JsText.TrimCutsSurroundingWhiteSpace` | src/screens/auth/LoginScreen.tsx:55 | The result is a slice of the input with only white space before and after it. With `Trim`'s non-white-space ends, this fixes the result uniquely: the input without its leading and trailing white space. |
| `JsText.Split` | src/screens/auth/RegisterScreen.tsx:86 | There is at least one piece, and no piece contains the separator. |
| `JsText.SplitJoin` | src/screens/auth/RegisterScreen.tsx:86 | Joined with the separator, the pieces give back the input. |
| `JsText.Length` | src/screens/auth/RegisterScreen.tsx:67 | `length` counts UTF-16 code units: between one and two per character, and exactly one per character when every character is in the Basic Multilingual Plane. |
| `JsText.LengthAppend` | src/screens/auth/RegisterScreen.tsx:67 | The length of a concatenation is the sum of the lengths. |
| `JsText.AstralCharacter` | src/screens/auth/RegisterScreen.tsx:67 | A single character counts two code units when it lies outside the Basic Multilingual Plane and one otherwise. With `LengthAppend`, this fixes the count of every string. |
| `JsText.Or` | src/services/auth.service.ts:47 | `v \|\| fallback` gives the value when it is present and non-empty, and the fallback otherwise. The result is empty only when the fallback is. |
| `RegisterScreen.IsValidEmail` | src/screens/auth/RegisterScreen.tsx:89-91 | An accepted address has at least five characters, the length of `a@b.c`, and contains '@'. |
| `RegisterScreen.IsValidEmailMatchesPattern` | src/screens/auth/RegisterScreen.tsx:89-91 | `isValidEmail` accepts exactly what the pattern matches. There is a '@' and a later '.' splitting the string into three non-empty parts with no white space and no '@'. |
| `RegisterScreen.ValidEmailIsTrimmed` | src/screens/auth/RegisterScreen.tsx:86-91 | An accepted e-mail is non-empty, has no white space, and has `email.trim() == email`. |
| `RegisterScreen.HandleRegister` | src/screens/auth/RegisterScreen.tsx:38-87 | `signUp` is called exactly when the trimmed e-mail is non-empty, the e-mail is valid, the trimmed password is non-empty, the password length is at least 8, and the confirmation matches. |
| `RegisterScreen.SignUpArguments` | src/screens/auth/RegisterScreen.tsx:86 | `signUp` receives the e-mail unchanged, the password and confirmation as typed, and as name the text before the '@'. |
| `RegisterScreen.RegisterCheckOrder` | src/screens/auth/RegisterScreen.tsx:40-83 | Each of the five messages appears exactly when its check fails and all earlier checks pass. A mismatch is reported only for a valid e-mail and a long enough, non-blank password. |
| `RegisterScreen.BlankLongPasswordRefused` | src/screens/auth/RegisterScreen.tsx:58-74 | A password of 8 or more white-space characters gets 'Password tidak boleh kosong', not the length message. |
| `RegisterScreen.RegisterDisabled` | src/screens/auth/RegisterScreen.tsx:233-237 | With the button enabled, the e-mail is its own trim and has at least five characters, and the password has at least four characters (eight UTF-16 code units). |
| `RegisterScreen.EnabledRegisterButton` | src/screens/auth/RegisterScreen.tsx:226-237 | With the button enabled, the handler either calls `signUp` or refuses a blank password. Every call it makes comes from a button that is enabled when not loading. |
| `LoginScreen.HandleLogin` | src/screens/auth/LoginScreen.tsx:54-74 | `signIn` is called exactly when neither field is blank after trimming. A blank login field is reported first; a blank password is reported only after a non-blank login field. |
| `LoginScreen.SignInArguments` | src/screens/auth/LoginScreen.tsx:73 | `signIn` receives the trimmed login field (non-empty, no surrounding white space) and the password unchanged. |
| `LoginScreen.LoginDisabled` | src/screens/auth/LoginScreen.tsx:181 | Whenever the handler would call `signIn` and nothing is loading, the button is enabled. |
| `LoginScreen.LoginButtonAndHandler` | src/screens/auth/LoginScreen.tsx:176-181 | For every input, a non-empty login field of white space only, with a non-empty password, passes the button and is refused by the handler with the blank-login-field message. |
| `LoginScreen.HandleGoogleSignIn` | src/screens/auth/LoginScreen.tsx:76-91 | Never a sign-in call. Whatever the token, the effect is an information message saying 'Google Sign In akan segera tersedia'. |
| `LoginScreen.OnGoogleResponse` | src/screens/auth/LoginScreen.tsx:36-41 | Something happens exactly for a 'success' response. It is an information message, never a sign-in call. |
| `BookingHistory.FilterByStatus` | src/screens/booking/BookingHistoryScreen.tsx:94 | Every kept booking has the requested status, and there are no more than in the list. |
| `BookingHistory.FilteredBookings` | src/screens/booking/BookingHistoryScreen.tsx:92-94 | The 'all' tab gives the list unchanged. Any other tab gives only bookings whose status is the tab's id. |
| `BookingHistory.FilterKeepsExactlyMatching` | src/screens/booking/BookingHistoryScreen.tsx:94 | The result is a subsequence of the list (order kept). It holds each booking of the status as often as the list does, and nothing else. |
| `BookingHistory.EmptyTab` | src/screens/booking/BookingHistoryScreen.tsx:92-94 | On a status tab, the empty-list message shows exactly when no booking has that status. |
| `BookingHistory.EachStatusTabListsOne` | src/screens/booking/BookingHistoryScreen.tsx:16-60 | On the app's own data, each status tab lists one booking and 'all' lists all of them. |
| `BookingHistory.StatusText` | src/screens/booking/BookingHistoryScreen.tsx:79-90 | An unknown status is shown as it is. |
| `BookingHistory.StatusTextIsTabLabel` | src/screens/booking/BookingHistoryScreen.tsx:55-60 | 'active', 'completed' and 'cancelled' are labelled 'Aktif', 'Selesai', 'Dibatalkan', the captions of their tabs. |
| `BookingHistory.StatusColor` | src/screens/booking/BookingHistoryScreen.tsx:66-77 | An unknown status gets the gray default style. |
| `BookingHistory.StatusColorsDistinct` | src/screens/booking/BookingHistoryScreen.tsx:66-77 | The three known statuses get three different styles, none of them the gray default. |
| `HomeScreen.SwapInvolutive` | src/screens/home/HomeScreen.tsx:99-103 | Swapping twice restores the form, and swapping leaves the passengers alone. |
| `HomeScreen.SearchForm.constructor` | src/screens/home/HomeScreen.tsx:68-72 | No origin, no destination, one passenger. |
| `HomeScreen.SearchForm.SwapLocations` | src/screens/home/HomeScreen.tsx:99-103 | Origin and destination are exchanged; passengers are unchanged. |
| `HomeScreen.SearchForm.DecrementPassengers` | src/screens/home/HomeScreen.tsx:206 | One passenger fewer, but never below one. The places are unchanged. |
| `HomeScreen.SearchForm.IncrementPassengers` | src/screens/home/HomeScreen.tsx:213 | Exactly one passenger more. The places are unchanged. |
| `HomeScreen.SearchForm.SelectOrigin` | src/screens/home/HomeScreen.tsx:139-142 | Only the origin changes, to the chosen place. |
| `HomeScreen.SearchForm.SelectDestination` | src/screens/home/HomeScreen.tsx:165-168 | Only the destination changes, to the chosen place. |
| `HomeScreen.SearchForm.SelectPopularRoute` | src/screens/home/HomeScreen.tsx:276-279 | Origin and destination become the route's `from` and `to`; passengers are untouched. |
| `HomeScreen.SearchForm.HandleSearch` | src/screens/home/HomeScreen.tsx:81-97 | Navigates exactly when both places are chosen, with origin, destination and passengers as they are. Otherwise it shows 'Silakan pilih asal dan tujuan'. It changes no state either way. |

## Left out

- Network and storage I/O. `fetch`, `response.json()` and the secure store are not modelled; each reply is a parameter and the store is a map. Request headers, the bearer header format and base URLs are not modelled either.
- Failures of the store itself are left out. `setItemAsync` and `deleteItemAsync` never fail in the model.
- Reply bodies are assumed to have their declared types. A JSON body that lacks a field or holds `null` in its place is not modelled, for example an ok login response without `token`.
- One case of this breaks the reducer invariant in the code: an ok login reply whose `user` is `null`.
  - The service stores the text "null" (src/services/auth.service.ts:53).
  - The context dispatches `SIGN_IN_SUCCESS` with a null payload (src/context/AuthContext.tsx:108).
  - It then reads `response.user.username` and throws (src/context/AuthContext.tsx:112), so `ERROR` is dispatched (src/context/AuthContext.tsx:116-117).
  - The state ends with `isAuthenticated` true and `user` null. The model's `User` is never null, so `AuthContext.Consistent` is proved only for well-typed replies.
- `Auth.Serialize` writes the user interface's declared fields in declaration order. Extra or reordered fields that the backend's user object may carry are not modelled.
- `Auth.AuthService.Logout` takes no reply. The logout response is never read and a failed request is caught, so every outcome has the same effect.
- The authenticated request gateway (`src/services/api.service.ts`) is not part of this model. Its methods call `authService.authenticatedFetch`, which `AuthService` does not define.
- The service calls of the auth context are abstract outcomes. The context calls `authService.loginWithGoogle`, which the service does not define, and it passes `login_field` where the service declares `email`. `AuthContext.AuthProvider.SignInWithGoogle` therefore takes the outcome as a parameter. With the service as written, that outcome is always a raised error, so the operation always ends in its failure branch.
- `AuthContext.AuthProvider.CheckAuthState` models the catch branch for a raised error, although the service's `getCurrentUser` catches everything and never raises.
- Concurrency and async interleaving are left out. Each operation runs to completion as one sequence of steps.
- Stale React closures and batched state updates are not modelled; each handler reads the current field values.
- Flash messages, alerts, rendering and styling are left out. The toasts appear only as the value a screen handler returns.
- Navigation is represented only as the "navigate to results with these parameters" effect of the search.
- The date in the search form and its ISO text are left out, so `HomeScreen.SearchForm.HandleSearch`'s parameters carry no date. Prices and price formatting are left out too.
- The refresh spinners driven by `setTimeout` are left out.
- The Google OAuth prompt itself is left out. Only its response's `type` and `id_token` are inputs.
- The profile screen, the app shell, the loading screen and the navigator are not part of this model.
- The `default` branch of the reducer is left out. It is unreachable for the five typed actions.
- The catch branch of `handleGoogleSignIn` is left out. It can only be reached if showing a message throws.
- Passenger counts are unbounded integers. JavaScript's floating-point number limit is far beyond any count a user can reach.
