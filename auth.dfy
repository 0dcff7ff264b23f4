/**
 * The authentication state machine of the client
 * (client/src/contexts/AuthContext.jsx): the reducer over the three actions
 * the provider dispatches, and the state it starts from. Persisting the
 * token and the user in local storage is outside the model.
 */
module Auth {
  import opened Basics

  /** The user record the server returns; the dashboard guard reads `role`. */
  datatype User = User(id: string, username: string, email: string, role: string)

  /** The reducer's state: `user` is `null` when nobody is signed in. */
  datatype AuthState = AuthState(user: Option<User>, isAuthenticated: bool)

  /**
   * A dispatched action. `Login` carries `payload.user`, `LoadUser` the
   * whole payload, both possibly missing; `Unrecognised` stands for an action
   * whose type is none of the three.
   */
  datatype Action = Login(user: Option<User>) | Logout | LoadUser(payload: Option<User>) | Unrecognised

  const InitialState: AuthState := AuthState(None, false)

  /** `authReducer`: each case replaces the two fields it names and keeps the rest of the state. */
  function Reduce(s: AuthState, a: Action): (r: AuthState)
    ensures Coherent(s) ==> Coherent(r)
    ensures a.Logout? ==> r == InitialState
  {
    match a
    case Login(u) => s.(user := u, isAuthenticated := true)
    case Logout => s.(user := None, isAuthenticated := false)
    case LoadUser(p) => s.(user := p, isAuthenticated := p.Some?)
    case Unrecognised => s
  }

  /** The state after a sequence of dispatches, in order. */
  function Run(s: AuthState, actions: seq<Action>): AuthState
    decreases |actions|
  {
    if actions == [] then s else Run(Reduce(s, actions[0]), actions[1..])
  }

  /** The initial state has nobody signed in. */
  lemma InitialSignedOut()
    ensures InitialState.user.None? && !InitialState.isAuthenticated
  {
  }

  /** Logging in authenticates with the payload's user, whatever came before. */
  lemma LoginEffect(s: AuthState, u: Option<User>)
    ensures Reduce(s, Login(u)).user == u && Reduce(s, Login(u)).isAuthenticated
  {
  }

  /** Logging out from any state is the initial state, so logging out twice is logging out once. */
  lemma LogoutResets(s: AuthState)
    ensures Reduce(s, Logout) == InitialState
    ensures Reduce(Reduce(s, Logout), Logout) == Reduce(s, Logout)
  {
  }

  /** Loading a stored user authenticates exactly when there is one. */
  lemma LoadUserEffect(s: AuthState, p: Option<User>)
    ensures Reduce(s, LoadUser(p)).user == p
    ensures Reduce(s, LoadUser(p)).isAuthenticated <==> p.Some?
  {
  }

  /** An action of any other type is ignored. */
  lemma UnrecognisedIgnored(s: AuthState)
    ensures Reduce(s, Unrecognised) == s
  {
  }

  /** Whoever is recorded as the user is authenticated. */
  predicate Coherent(s: AuthState) {
    s.user.Some? ==> s.isAuthenticated
  }

  /** Every action keeps the state coherent. */
  lemma ReducePreservesCoherent(s: AuthState, a: Action)
    requires Coherent(s)
    ensures Coherent(Reduce(s, a))
  {
  }

  /** Any sequence of dispatches from a coherent state ends coherent, the initial state first of all. */
  lemma {:induction false} RunPreservesCoherent(s: AuthState, actions: seq<Action>)
    requires Coherent(s)
    ensures Coherent(Run(s, actions))
    decreases |actions|
  {
    if actions != [] {
      ReducePreservesCoherent(s, actions[0]);
      RunPreservesCoherent(Reduce(s, actions[0]), actions[1..]);
    }
  }

  /** Running a + b is running a, then b. */
  lemma {:induction false} RunAppend(s: AuthState, a: seq<Action>, b: seq<Action>)
    ensures Run(s, a + b) == Run(Run(s, a), b)
    decreases |a|
  {
    if a != [] {
      assert (a + b)[0] == a[0] && (a + b)[1..] == a[1..] + b;
      RunAppend(Reduce(s, a[0]), a[1..], b);
    } else {
      assert a + b == b;
    }
  }

  /** A session that ends with a logout ends signed out, whatever it did before. */
  lemma EndsWithLogout(s: AuthState, actions: seq<Action>)
    ensures Run(s, actions + [Logout]) == InitialState
  {
    RunAppend(s, actions, [Logout]);
  }

  /**
   * The converse of coherence does not hold: a login whose payload has no
   * user leaves the state authenticated with nobody recorded.
   */
  lemma LoginWithoutUser()
    ensures var s := Reduce(InitialState, Login(None));
      s.isAuthenticated && s.user.None?
  {
  }
}
