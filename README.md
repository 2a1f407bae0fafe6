# Session state of the Restaurant-Manager app

A model of the login/session state machine held by the `App` component of
`App.js`: the login record (`isLoading`, `userName`, `userToken`), the
`loginReducer` that `React.useReducer` applies to each dispatched action, the
authentication context (`signIn`, `signOut`, `signUp`, `toggleTheme`), the
start-up effect that restores a persisted token, and the choice between the
loading indicator, the authenticated drawer and the sign-in stack.

- `login_reducer.dfy` (module `LoginReducer`): JavaScript values as the record
  holds them (`Null`, `Undefined`, `Str`), the record, the closed set of
  actions, the pure `Reduce`, and `ReduceAll`, the fold of a sequence of
  dispatched actions over a record. Lemmas relate the fold to two independent
  definitions read off the actions: the token comes from the most recent action
  alone (`TokenSetBy`), the user name from the most recent action that names
  one (`NameAfter`).
- `routing.dfy` (module `Routing`): which tree is rendered for a record.
- `session.dfy` (module `AuthSession`): a `Session` class whose fields are the
  login record, the theme flag and the key-value store, plus a ghost log of the
  dispatched actions. Its invariant `Valid()` says the record is always the fold
  of the log over the initial record. Every store call takes a `StoreOutcome`
  (`Succeeds` or `Fails`) chosen by the caller, which is how a failing store is
  expressed.

Points where the code's behaviour is easy to misread:

- `signIn` dispatches `{ type: 'LOGIN', token }` with no `id`, so after sign-in
  the user name is `undefined` (`Undefined`), not an identity. `LOGOUT` writes
  `null` (`Null`); the two are kept apart.
- The drawer test is `userToken !== null`, a strict comparison. A token that is
  `undefined` therefore opens the drawer. "Signed in" in the lemmas means
  "the token is not `Null`", never "the token is a string".
- `signIn(null)` dispatches LOGIN with a `null` token and leaves the user on the
  sign-in stack, so a sign-in opens the drawer only for a token other than
  `null`; `Session.CurrentScreen` and `Routing.ScreenAfterActions` state the
  exact condition.

## Model

| member | source | states |
|---|---|---|
| LoginReducer.InitialLoginState | App.js:49-53 | the reducer starts out loading, with `null` user name and `null` token |
| LoginReducer.Reduce | App.js:79-109 | every handled action ends loading, whatever the previous record |
| LoginReducer.ReduceAll | App.js:111 | the folded record is loading exactly when the start record was and nothing has been dispatched |
| LoginReducer.RetrieveTokenKeepsName | App.js:81-86 | RETRIEVE_TOKEN installs the action's token and keeps the user name |
| LoginReducer.LoginIsRegister | App.js:87-107 | LOGIN and REGISTER give the same record, `(false, id, token)`, from any previous record |
| LoginReducer.LogoutResets | App.js:94-100 | LOGOUT yields `(false, null, null)` from any record, so a second LOGOUT changes nothing |
| LoginReducer.ReduceAllSnoc | App.js:111 | dispatching one more action steps the folded record once more with that action |
| LoginReducer.ReduceAllToken | App.js:79-111 | after a non-empty sequence of actions the token is the one the most recent action carries (`null` for LOGOUT) |
| LoginReducer.ReduceAllName | App.js:79-111 | after any sequence the user name is that of the most recent LOGIN/REGISTER/LOGOUT, or the starting name if there is none |
| Routing.ScreenFor | App.js:152-175 | the loading indicator exactly while loading; otherwise the drawer exactly when the token is not `null`, else the root stack |
| Routing.InitialScreenIsLoading | App.js:49-157 | the initial record renders the loading indicator |
| Routing.ScreenAfterActions | App.js:152-175 | once any action is dispatched loading never shows again, and the drawer shows exactly when the most recent action left a non-`null` token |
| AuthSession.Session.constructor | App.js:47-53 | a mounted App has the initial record, the light theme and the persisted store, with nothing dispatched |
| AuthSession.Session.CurrentScreen | App.js:152-175 | the rendered tree is the loading indicator until the first dispatch, then the drawer exactly when the most recent dispatched action left a non-`null` token |
| AuthSession.Session.Dispatch | App.js:111 | the record becomes the reducer's result and the action is appended to the log, keeping the fold invariant |
| AuthSession.Session.SignIn | App.js:114-121 | the store gets the token only if the write succeeds; either way the record becomes `(false, undefined, token)` and the drawer shows iff the token is not `null` |
| AuthSession.Session.SignOut | App.js:122-129 | the stored token is removed only if the removal succeeds; either way the record becomes `(false, null, null)` and the root stack shows |
| AuthSession.Session.SignUp | App.js:130-131 | nothing changes |
| AuthSession.Session.ToggleTheme | App.js:132-134 | the theme flag flips; the record, the store and the log are untouched |
| AuthSession.ToggleThemeTwice | App.js:132-134 | toggling twice restores the theme flag and leaves the record, the store and the dispatched log as they were |
| AuthSession.Session.ReadStoredToken | App.js:140-146 | the token read is the stored value when the read succeeds and the key is present, `null` otherwise |
| AuthSession.Session.Bootstrap | App.js:137-150 | RETRIEVE_TOKEN is dispatched with the stored token or `null`; the name is kept, loading ends, the store is untouched, and the drawer shows iff that token is not `null` |

## Left out

- An action whose `type` is none of the four: `loginReducer` has no `default`
  case and would return `undefined`. The closed `Action` datatype makes that
  input impossible; no behaviour is invented for it.
- The `setTimeout` delay of 1000 ms around the start-up read and every
  interleaving of the asynchronous store calls with other operations: each
  operation is one sequential step, and the caller chooses the order.
- The AsyncStorage library itself: it is a map from keys to values, and each
  call's success or failure is a parameter. How the library treats a value
  that is not a string is not modelled; such a write either stores the value
  or fails. Likewise the persisted map given to `Session` may hold any value
  under the token key, so a start-up read may return `undefined`, a value
  `getItem` never returns (it gives back a string or `null`).
- `console.log` of caught store errors: logging has no effect on the state.
- `React.useMemo` around the context object: it only keeps the same functions
  across renders.
- The theme objects (App.js:55-77) and the navigation, paper, redux and toast
  providers (App.js:38-43, 159-182): configuration and rendering of libraries
  whose code is not part of this model. Only the choice of tree is modelled.
- `share/services/api.js`: each function passes its arguments straight to the
  HTTP client (`apisauce`, not part of this model) and returns its response
  unchanged; there is no local logic beyond constant path strings.
- `screens/hotel-item-details/HotelItemDetails.js`: rendering and animation
  only; `convertPrice` is not part of this model.
