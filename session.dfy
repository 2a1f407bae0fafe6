/** The session held by the App component of App.js: the login record kept by
    `React.useReducer`, the dark-theme flag kept by `React.useState`, and the
    key-value store the token is persisted in, with the four operations of the
    authentication context and the start-up effect that restores the token. */
module AuthSession {
  import opened LoginReducer
  import opened Routing

  /** The one key the session reads, writes and removes. */
  const TokenKey: string := "userToken"

  /** How one asynchronous store call settles. A failure is caught, logged
      and otherwise ignored by every caller. */
  datatype StoreOutcome = Succeeds | Fails

  class Session {
    var loginState: LoginState
    var isDarkTheme: bool
    /** The persistent key-value store, as far as this session sees it. */
    var storage: map<string, JsValue>
    /** Every action dispatched to the reducer so far, oldest first. */
    ghost var dispatched: seq<Action>

    /** The reducer's state is the fold of everything dispatched so far over
        the initial record. */
    ghost predicate Valid()
      reads this
    {
      loginState == ReduceAll(InitialLoginState(), dispatched)
    }

    /** The App component mounting: light theme, initial login record, and a
        store holding whatever an earlier run left in it. */
    constructor (persisted: map<string, JsValue>)
      ensures Valid()
      ensures loginState == InitialLoginState() && !isDarkTheme
      ensures storage == persisted && dispatched == []
    {
      loginState := InitialLoginState();
      isDarkTheme := false;
      storage := persisted;
      dispatched := [];
    }

    /** What the component renders now: the loading indicator until the first
        action, then the drawer exactly when the most recent action left a
        token other than `null`. */
    function CurrentScreen(): (v: Screen)
      reads this
      requires Valid()
      ensures v == LoadingIndicator <==> dispatched == []
      ensures dispatched != [] ==>
        ((v == DrawerNavigator) <==> TokenSetBy(dispatched[|dispatched| - 1]) != Null)
    {
      if loginState.isLoading then ScreenFor(loginState)
      else ScreenAfterActions(InitialLoginState(), dispatched); ScreenFor(loginState)
    }

    /** `dispatch`: replace the record by the reducer's result. */
    method Dispatch(action: Action)
      requires Valid()
      modifies this`loginState, this`dispatched
      ensures Valid()
      ensures loginState == Reduce(old(loginState), action)
      ensures dispatched == old(dispatched) + [action]
    {
      ReduceAllSnoc(InitialLoginState(), dispatched, action);
      loginState := Reduce(loginState, action);
      dispatched := dispatched + [action];
    }

    /** `signIn(userToken)`: try to persist the token, then dispatch LOGIN
        with the token and no `id`. The record is the same whether or not
        the write succeeded; the user name becomes `undefined`. */
    method SignIn(userToken: JsValue, setItem: StoreOutcome)
      requires Valid()
      modifies this`storage, this`loginState, this`dispatched
      ensures Valid()
      ensures storage == if setItem == Succeeds then old(storage)[TokenKey := userToken] else old(storage)
      ensures dispatched == old(dispatched) + [Login(Undefined, userToken)]
      ensures loginState == LoginState(false, Undefined, userToken)
      ensures isDarkTheme == old(isDarkTheme)
      ensures (CurrentScreen() == DrawerNavigator) <==> userToken != Null
    {
      if setItem == Succeeds {
        storage := storage[TokenKey := userToken];
      }
      Dispatch(Login(Undefined, userToken));
    }

    /** `signOut()`: try to remove the stored token, then dispatch LOGOUT.
        The record is cleared whether or not the removal succeeded. */
    method SignOut(removeItem: StoreOutcome)
      requires Valid()
      modifies this`storage, this`loginState, this`dispatched
      ensures Valid()
      ensures storage == if removeItem == Succeeds then old(storage) - {TokenKey} else old(storage)
      ensures dispatched == old(dispatched) + [Logout]
      ensures loginState == LoginState(false, Null, Null)
      ensures isDarkTheme == old(isDarkTheme)
      ensures CurrentScreen() == RootStack
    {
      if removeItem == Succeeds {
        storage := storage - {TokenKey};
      }
      Dispatch(Logout);
    }

    /** `signUp()`: an empty placeholder. */
    method SignUp()
      requires Valid()
      ensures Valid()
      ensures unchanged(this)
    {
    }

    /** `toggleTheme()`: flip the theme flag; the login record, the store and
        the dispatched actions are untouched. */
    method ToggleTheme()
      requires Valid()
      modifies this`isDarkTheme
      ensures Valid()
      ensures isDarkTheme == !old(isDarkTheme)
      ensures loginState == old(loginState) && storage == old(storage) && dispatched == old(dispatched)
    {
      isDarkTheme := !isDarkTheme;
    }

    /** The read inside the start-up effect: start from `null`, and take the
        stored value only if `getItem` succeeds; a missing key reads as `null`. */
    method ReadStoredToken(getItem: StoreOutcome) returns (userToken: JsValue)
      ensures getItem == Fails ==> userToken == Null
      ensures getItem == Succeeds && TokenKey !in storage ==> userToken == Null
      ensures getItem == Succeeds && TokenKey in storage ==> userToken == storage[TokenKey]
    {
      userToken := Null;
      if getItem == Succeeds {
        userToken := if TokenKey in storage then storage[TokenKey] else Null;
      }
    }

    /** The start-up effect, taken as one step: read the token and dispatch
        RETRIEVE_TOKEN with it. The user name is kept, loading is over, and
        the drawer is shown exactly when a token other than `null` was read. */
    method Bootstrap(getItem: StoreOutcome)
      requires Valid()
      modifies this`loginState, this`dispatched
      ensures Valid()
      ensures var token := if getItem == Succeeds && TokenKey in storage then storage[TokenKey] else Null;
        && dispatched == old(dispatched) + [RetrieveToken(token)]
        && loginState == LoginState(false, old(loginState).userName, token)
        && ((CurrentScreen() == DrawerNavigator) <==> token != Null)
      ensures storage == old(storage) && isDarkTheme == old(isDarkTheme)
    {
      var userToken := ReadStoredToken(getItem);
      Dispatch(RetrieveToken(userToken));
    }
  }

  /** Toggling the theme twice restores the flag and touches nothing else. */
  method ToggleThemeTwice(session: Session)
    requires session.Valid()
    modifies session
    ensures session.Valid()
    ensures session.isDarkTheme == old(session.isDarkTheme)
    ensures session.loginState == old(session.loginState)
    ensures session.storage == old(session.storage)
    ensures session.dispatched == old(session.dispatched)
  {
    session.ToggleTheme();
    session.ToggleTheme();
  }
}
