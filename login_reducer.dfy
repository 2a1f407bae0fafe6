/** The login reducer of App.js: the record that says whether the app is still
    restoring its session and who is signed in, the four action kinds that
    change it, and the pure transition function `React.useReducer` folds over
    every dispatched action. */
module LoginReducer {

  /** A JavaScript value as the login record holds it. `null` and `undefined`
      are kept apart because the router tests `userToken !== null` strictly:
      an `undefined` token counts as signed in. */
  datatype JsValue = Null | Undefined | Str(s: string)

  /** `{isLoading, userName, userToken}` */
  datatype LoginState = LoginState(isLoading: bool, userName: JsValue, userToken: JsValue)

  /** The tagged actions the reducer handles. A field the dispatching object
      does not carry (`{ type: 'LOGIN', token }` has no `id`) is `Undefined`. */
  datatype Action =
    | RetrieveToken(token: JsValue)
    | Login(id: JsValue, token: JsValue)
    | Logout
    | Register(id: JsValue, token: JsValue)

  /** The state the reducer starts from: still loading, nobody signed in. */
  function InitialLoginState(): (s: LoginState)
    ensures s.isLoading && s.userName == Null && s.userToken == Null
  {
    LoginState(true, Null, Null)
  }

  /** One transition: each case copies the previous record and overwrites
      some of its fields. Whatever the action, loading is over afterwards. */
  function Reduce(prev: LoginState, action: Action): (r: LoginState)
    ensures !r.isLoading
  {
    match action
    case RetrieveToken(token) => prev.(userToken := token, isLoading := false)
    case Login(id, token) => prev.(userName := id, userToken := token, isLoading := false)
    case Logout => prev.(userName := Null, userToken := Null, isLoading := false)
    case Register(id, token) => prev.(userName := id, userToken := token, isLoading := false)
  }

  /** The state reached from `s` by dispatching `actions` in order. */
  function ReduceAll(s: LoginState, actions: seq<Action>): (r: LoginState)
    ensures r.isLoading <==> s.isLoading && actions == []
    decreases |actions|
  {
    if actions == [] then s else ReduceAll(Reduce(s, actions[0]), actions[1..])
  }

  /** The token an action leaves in the record, read off the action alone. */
  function TokenSetBy(action: Action): JsValue
  {
    match action
    case RetrieveToken(token) => token
    case Login(_, token) => token
    case Logout => Null
    case Register(_, token) => token
  }

  /** Reference definition of the user name after `actions`, scanning from the
      most recent action backwards: the last action that names a user decides,
      a token restore names nobody, and with no such action the name is the
      one the sequence started from. */
  function NameAfter(initial: JsValue, actions: seq<Action>): JsValue
    decreases |actions|
  {
    if actions == [] then initial
    else
      match actions[|actions| - 1]
      case RetrieveToken(_) => NameAfter(initial, actions[..|actions| - 1])
      case Login(id, _) => id
      case Logout => Null
      case Register(id, _) => id
  }

  lemma RetrieveTokenKeepsName(prev: LoginState, token: JsValue)
    ensures Reduce(prev, RetrieveToken(token)).userToken == token
    ensures Reduce(prev, RetrieveToken(token)).userName == prev.userName
  {
  }

  /** LOGIN and REGISTER are interchangeable, and neither depends on the
      state it is applied to. */
  lemma LoginIsRegister(prev: LoginState, other: LoginState, id: JsValue, token: JsValue)
    ensures Reduce(prev, Login(id, token)) == Reduce(prev, Register(id, token))
    ensures Reduce(prev, Login(id, token)) == LoginState(false, id, token)
    ensures Reduce(prev, Login(id, token)) == Reduce(other, Login(id, token))
  {
  }

  /** LOGOUT forgets everything about the state it is applied to, so applying
      it a second time changes nothing. */
  lemma LogoutResets(prev: LoginState, other: LoginState)
    ensures Reduce(prev, Logout) == LoginState(false, Null, Null)
    ensures Reduce(prev, Logout) == Reduce(other, Logout)
    ensures Reduce(Reduce(prev, Logout), Logout) == Reduce(prev, Logout)
  {
  }

  /** Dispatching one more action steps the folded state once more. */
  lemma {:induction false} ReduceAllSnoc(s: LoginState, actions: seq<Action>, a: Action)
    ensures ReduceAll(s, actions + [a]) == Reduce(ReduceAll(s, actions), a)
    decreases |actions|
  {
    if actions == [] {
      assert [] + [a] == [a];
    } else {
      assert (actions + [a])[0] == actions[0];
      assert (actions + [a])[1..] == actions[1..] + [a];
      ReduceAllSnoc(Reduce(s, actions[0]), actions[1..], a);
    }
  }

  /** Only the most recent action decides the token. */
  lemma ReduceAllToken(s: LoginState, actions: seq<Action>)
    requires actions != []
    ensures ReduceAll(s, actions).userToken == TokenSetBy(actions[|actions| - 1])
  {
    var last := |actions| - 1;
    assert actions == actions[..last] + [actions[last]];
    ReduceAllSnoc(s, actions[..last], actions[last]);
  }

  /** The folded user name agrees with the backwards reference definition. */
  lemma {:induction false} ReduceAllName(s: LoginState, actions: seq<Action>)
    ensures ReduceAll(s, actions).userName == NameAfter(s.userName, actions)
    decreases |actions|
  {
    if actions != [] {
      var last := |actions| - 1;
      assert actions == actions[..last] + [actions[last]];
      ReduceAllSnoc(s, actions[..last], actions[last]);
      ReduceAllName(s, actions[..last]);
    }
  }
}
