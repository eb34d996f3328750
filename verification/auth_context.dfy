/** The client's session state (frontend/src/contexts/AuthContext.js): the
    reducer over the five actions, the initial state, and the action the
    mount effect dispatches for a token kept from an earlier visit. Storage,
    HTTP headers and the network calls around them are left out. */
module AuthContext {
  import opened Common

  /** The `user` object the client keeps: the login reply's, or one rebuilt
      from a stored token, which has no name. */
  datatype ClientUser = ClientUser(id: nat, name: Option<string>, email: string, role: string, userType: string)

  datatype AuthState = AuthState(isAuthenticated: bool, user: Option<ClientUser>, token: Option<string>,
                                 loading: bool, error: Option<string>)

  /** The dispatched actions; `Unknown` is any other `type`. */
  datatype Action =
    | LoginAction(user: ClientUser, token: string)
    | LogoutAction
    | SetLoading(loading: bool)
    | SetError(message: string)
    | ClearError
    | Unknown(tag: string)

  /** `initialState`, with the token read from storage. */
  function InitialState(stored: Option<string>): (s: AuthState)
    ensures !s.isAuthenticated && s.user.None? && s.loading && s.error.None? && s.token == stored
  {
    AuthState(false, None, stored, true, None)
  }

  /** `authReducer`. */
  function Reduce(state: AuthState, action: Action): (r: AuthState)
    ensures action.LoginAction? ==>
              r == AuthState(true, Some(action.user), Some(action.token), false, None)
    ensures action.LogoutAction? ==> r == AuthState(false, None, None, false, None)
    ensures action.SetLoading? ==>
              && r.loading == action.loading
              && r.isAuthenticated == state.isAuthenticated && r.user == state.user
              && r.token == state.token && r.error == state.error
    ensures action.SetError? ==>
              && r.error == Some(action.message) && !r.loading
              && r.isAuthenticated == state.isAuthenticated && r.user == state.user && r.token == state.token
    ensures action.ClearError? ==>
              && r.error.None?
              && r.isAuthenticated == state.isAuthenticated && r.user == state.user
              && r.token == state.token && r.loading == state.loading
    ensures action.Unknown? ==> r == state
  {
    match action
    case LoginAction(user, token) => state.(isAuthenticated := true, user := Some(user), token := Some(token),
                                            loading := false, error := None)
    case LogoutAction => state.(isAuthenticated := false, user := None, token := None, loading := false, error := None)
    case SetLoading(loading) => state.(loading := loading)
    case SetError(message) => state.(error := Some(message), loading := false)
    case ClearError => state.(error := None)
    case Unknown(_) => state
  }

  /** An authenticated state has a user and a token; an unauthenticated one
      has no user (it may still hold a stored token not yet checked). */
  predicate Coherent(s: AuthState) {
    (s.isAuthenticated ==> s.user.Some? && s.token.Some?) && (!s.isAuthenticated ==> s.user.None?)
  }

  /** The initial state is coherent and every action keeps it so. */
  lemma ReduceKeepsCoherent(stored: Option<string>, s: AuthState, a: Action)
    ensures Coherent(InitialState(stored))
    ensures Coherent(s) ==> Coherent(Reduce(s, a))
  {
  }

  /** Dispatching the same action twice is dispatching it once. */
  lemma ReduceIdempotent(s: AuthState, a: Action)
    ensures Reduce(Reduce(s, a), a) == Reduce(s, a)
  {
  }

  /** The state after a run of dispatches, in order. */
  function ReduceAll(s: AuthState, actions: seq<Action>): (r: AuthState)
    decreases |actions|
  {
    if |actions| == 0 then s else ReduceAll(Reduce(s, actions[0]), actions[1..])
  }

  /** No run of dispatches breaks coherence. */
  lemma {:induction false} ReduceAllKeepsCoherent(s: AuthState, actions: seq<Action>)
    requires Coherent(s)
    ensures Coherent(ReduceAll(s, actions))
    decreases |actions|
  {
    if |actions| > 0 {
      ReduceKeepsCoherent(None, s, actions[0]);
      ReduceAllKeepsCoherent(Reduce(s, actions[0]), actions[1..]);
    }
  }

  /** Three dispatches in a row. */
  lemma ReduceThree(s: AuthState, a: Action, b: Action, c: Action)
    ensures ReduceAll(s, [a, b, c]) == Reduce(Reduce(Reduce(s, a), b), c)
  {
    var s1, s2 := Reduce(s, a), Reduce(Reduce(s, a), b);
    assert [a, b, c][1..] == [b, c] && [b, c][1..] == [c] && [c][1..] == [];
    assert ReduceAll(s2, [c]) == ReduceAll(Reduce(s2, c), []);
    assert ReduceAll(s1, [b, c]) == ReduceAll(s2, [c]);
  }

  /** How a request to the server ends: its reply, or a failure carrying the
      reply's `error` field when there was one. */
  datatype Outcome<T> = Success(value: T) | Failure(serverError: Option<string>)

  /** `error.response?.data?.error || fallback`. */
  function ErrorMessage(serverError: Option<string>, fallback: string): (m: string)
    ensures serverError.Some? && serverError.value != "" ==> m == serverError.value
    ensures serverError.None? || serverError.value == "" ==> m == fallback
  {
    if serverError.Some? && serverError.value != "" then serverError.value else fallback
  }

  /** What `login` (fallback `'Login failed'`) and `signup` (fallback
      `'Signup failed'`) dispatch: start loading, clear the error, then sign
      in with the reply's user and token, or record the failure. */
  function SignInActions(outcome: Outcome<(ClientUser, string)>, fallback: string): (acts: seq<Action>)
    ensures |acts| == 3 && acts[0] == SetLoading(true) && acts[1] == ClearError
    ensures acts[2].LoginAction? <==> outcome.Success?
    ensures outcome.Success? ==> acts[2] == LoginAction(outcome.value.0, outcome.value.1)
    ensures forall i | 0 <= i < |acts| :: !acts[i].LogoutAction?
  {
    match outcome
    case Success((user, token)) => [SetLoading(true), ClearError, LoginAction(user, token)]
    case Failure(e) => [SetLoading(true), ClearError, SetError(ErrorMessage(e, fallback))]
  }

  /** A sign-in request always settles: loading ends; a success signs in with
      exactly the reply's user and token and no error; a failure shows its
      message and leaves the session as it was. */
  lemma SignInSettles(s: AuthState, outcome: Outcome<(ClientUser, string)>, fallback: string)
    ensures var r := ReduceAll(s, SignInActions(outcome, fallback));
            && !r.loading
            && (outcome.Success? ==>
                  r == AuthState(true, Some(outcome.value.0), Some(outcome.value.1), false, None))
            && (outcome.Failure? ==>
                  && r.error == Some(ErrorMessage(outcome.serverError, fallback))
                  && r.isAuthenticated == s.isAuthenticated && r.user == s.user && r.token == s.token)
  {
    var actions := SignInActions(outcome, fallback);
    ReduceThree(s, actions[0], actions[1], actions[2]);
  }

  /** What `changePassword` dispatches: start loading, clear the error, then
      stop loading on success or record the failure. */
  function ChangePasswordActions(outcome: Outcome<()>): (acts: seq<Action>)
    ensures |acts| == 3 && acts[0] == SetLoading(true) && acts[1] == ClearError
    ensures acts[2] == SetLoading(false) <==> outcome.Success?
    ensures forall i | 0 <= i < |acts| :: !acts[i].LoginAction? && !acts[i].LogoutAction?
  {
    match outcome
    case Success(_) => [SetLoading(true), ClearError, SetLoading(false)]
    case Failure(e) => [SetLoading(true), ClearError, SetError(ErrorMessage(e, "Password change failed"))]
  }

  /** What `changePassword` hands back to the form: `None` on success, the
      failure message otherwise. */
  function ChangePasswordResult(outcome: Outcome<()>): (r: Option<string>)
    ensures r.None? <==> outcome.Success?
  {
    match outcome
    case Success(_) => None
    case Failure(e) => Some(ErrorMessage(e, "Password change failed"))
  }

  /** Changing the password never touches the session, always ends the
      loading, and leaves in the state the same error it hands the form. */
  lemma ChangePasswordSettles(s: AuthState, outcome: Outcome<()>)
    ensures var r := ReduceAll(s, ChangePasswordActions(outcome));
            && !r.loading
            && r.isAuthenticated == s.isAuthenticated && r.user == s.user && r.token == s.token
            && r.error == ChangePasswordResult(outcome)
  {
    var actions := ChangePasswordActions(outcome);
    ReduceThree(s, actions[0], actions[1], actions[2]);
  }

  /** The claims the client reads from a token, undecoded by any key:
      `exp` is in seconds. */
  datatype Payload = Payload(id: nat, email: string, role: Option<string>, kind: string, exp: int)

  /** The client's `user` rebuilt from claims: `payload.role || 'store_owner'`. */
  function RestoredUser(p: Payload): (u: ClientUser)
    ensures u.role == (if p.role.Some? && p.role.value != "" then p.role.value else "store_owner")
    ensures u.userType == p.kind && u.id == p.id && u.email == p.email && u.name.None?
  {
    ClientUser(p.id, None, p.email, if p.role.Some? && p.role.value != "" then p.role.value else "store_owner", p.kind)
  }

  /** The mount effect's dispatch. `decode` reads a token's claims (`None` when
      that throws); `nowMs` is `Date.now()`. No stored token ends the loading;
      a token still valid logs in; an expired or unreadable one logs out. */
  function RestoreAction(token: Option<string>, decode: string -> Option<Payload>, nowMs: int): (a: Action)
    ensures token.None? || token.value == "" ==> a == SetLoading(false)
    ensures token.Some? && token.value != "" ==>
              match decode(token.value)
              case None => a == LogoutAction
              case Some(p) => a == (if p.exp * 1000 > nowMs then LoginAction(RestoredUser(p), token.value) else LogoutAction)
  {
    if token.None? || token.value == "" then SetLoading(false)
    else
      match decode(token.value)
      case None => LogoutAction
      case Some(p) => if p.exp * 1000 > nowMs then LoginAction(RestoredUser(p), token.value) else LogoutAction
  }

  /** After the mount effect the client is no longer loading, and it is
      signed in exactly when the stored token decodes and has not expired. */
  lemma RestoreEndsLoading(stored: Option<string>, decode: string -> Option<Payload>, nowMs: int)
    ensures var s := Reduce(InitialState(stored), RestoreAction(stored, decode, nowMs));
            && !s.loading && Coherent(s)
            && (s.isAuthenticated <==>
                  stored.Some? && stored.value != "" && decode(stored.value).Some?
                  && decode(stored.value).value.exp * 1000 > nowMs)
            && (s.isAuthenticated ==> s.user == Some(RestoredUser(decode(stored.value).value)))
            && (!s.isAuthenticated && stored.Some? && stored.value != "" ==> s.token.None?)
  {
  }
}
