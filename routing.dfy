/** Which tree App.js renders for a login record: the activity indicator while
    the stored token is still being looked up, then the authenticated drawer
    navigator or the sign-in stack. */
module Routing {
  import opened LoginReducer

  datatype Screen = LoadingIndicator | DrawerNavigator | RootStack

  /** The loading check comes first; past it, the drawer is shown exactly when
      the token is not strictly `null` (an `undefined` token also opens it). */
  function ScreenFor(s: LoginState): (v: Screen)
    ensures v == LoadingIndicator <==> s.isLoading
    ensures v == DrawerNavigator <==> !s.isLoading && s.userToken != Null
    ensures v == RootStack <==> !s.isLoading && s.userToken == Null
  {
    if s.isLoading then LoadingIndicator
    else if s.userToken != Null then DrawerNavigator
    else RootStack
  }

  /** The initial record shows the loading indicator. */
  lemma InitialScreenIsLoading()
    ensures ScreenFor(InitialLoginState()) == LoadingIndicator
  {
  }

  /** Once any action has been dispatched the loading indicator never comes
      back, and the drawer is shown exactly when the most recent action left a
      token other than `null`. */
  lemma ScreenAfterActions(s: LoginState, actions: seq<Action>)
    requires actions != []
    ensures ScreenFor(ReduceAll(s, actions)) != LoadingIndicator
    ensures (ScreenFor(ReduceAll(s, actions)) == DrawerNavigator) <==> TokenSetBy(actions[|actions| - 1]) != Null
  {
    ReduceAllToken(s, actions);
  }
}
