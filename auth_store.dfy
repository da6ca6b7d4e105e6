/** `useAuthStore`: the signed-in user and the loading flag, changed by the
    store's actions. The token storage (local storage and the `auth_token`
    cookie) is one abstract optional field; the clock enters as a parameter,
    and a failing storage write is a parameter of the actions that write. */
module AuthStore {
  import opened Optional
  import opened JsPrims

  datatype User = User(id: string, name: string, email: string)

  /** The user every mock sign-in produces, apart from the name and email given. */
  const MockUserId := "1"
  const MockUser := User("1", "John Doe", "john@example.com")
  const TokenPrefix := "mock_token_"

  /** `mock_token_${Date.now()}`: the prefix followed by the decimal time, which can be read back. */
  function MockToken(now: nat): (t: string)
    ensures StartsWith(t, TokenPrefix)
    ensures |t| > |TokenPrefix| && forall i :: |TokenPrefix| <= i < |t| ==> IsDigit(t[i])
    ensures ParseNat(t[|TokenPrefix|..]) == now
    ensures t != ""
  {
    var digits := NatToString(now);
    ParseNatToString(now);
    assert (TokenPrefix + digits)[|TokenPrefix|..] == digits;
    TokenPrefix + digits
  }

  /** Tokens minted at different times differ. */
  lemma MockTokensDistinct(a: nat, b: nat)
    requires a != b
    ensures MockToken(a) != MockToken(b)
  {
    assert ParseNat(MockToken(a)[|TokenPrefix|..]) != ParseNat(MockToken(b)[|TokenPrefix|..]);
  }

  /** `if (token)`: a stored token that is not the empty string. */
  predicate HasToken(token: Option<string>) {
    token.Some? && token.value != ""
  }

  class Store {
    var user: Option<User>
    var loading: bool
    var token: Option<string>

    /** The slice `partialize` writes to storage: the user alone. */
    function Persisted(): Option<User>
      reads this
    {
      user
    }

    /** A fresh store: no user and loading, unless storage held a persisted
        user, which is merged back in. */
    constructor (persisted: Option<Option<User>>, token: Option<string>)
      ensures user == (if persisted.Some? then persisted.value else None)
      ensures loading && this.token == token
    {
      user := if persisted.Some? then persisted.value else None;
      loading := true;
      this.token := token;
    }

    method SetUser(u: Option<User>)
      modifies this
      ensures user == u && loading == old(loading) && token == old(token)
    {
      user := u;
    }

    /** Changes the loading flag and nothing persisted. */
    method SetLoading(value: bool)
      modifies this
      ensures loading == value && user == old(user) && token == old(token)
      ensures Persisted() == old(Persisted())
    {
      loading := value;
    }

    /** `login`: after the simulated wait, stores a fresh token and signs in
        the mock user under the given email. A failing token write is
        reported as "Login failed" and changes nothing. */
    method Login(email: string, now: nat, storageFails: bool) returns (error: Option<string>)
      modifies this
      ensures storageFails ==> error == Some("Login failed") && user == old(user) && token == old(token)
      ensures !storageFails ==> error.None? && user == Some(User(MockUserId, "John Doe", email)) && token == Some(MockToken(now))
      ensures loading == old(loading)
    {
      if storageFails {
        error := Some("Login failed");
      } else {
        token := Some(MockToken(now));
        user := Some(User(MockUserId, "John Doe", email));
        error := None;
      }
    }

    /** `signup`: as `login`, with the given name. */
    method Signup(name: string, email: string, now: nat, storageFails: bool) returns (error: Option<string>)
      modifies this
      ensures storageFails ==> error == Some("Signup failed") && user == old(user) && token == old(token)
      ensures !storageFails ==> error.None? && user == Some(User(MockUserId, name, email)) && token == Some(MockToken(now))
      ensures loading == old(loading)
    {
      if storageFails {
        error := Some("Signup failed");
      } else {
        token := Some(MockToken(now));
        user := Some(User(MockUserId, name, email));
        error := None;
      }
    }

    /** `logout`: the token and the user are gone whether or not the call failed. */
    method Logout(callFails: bool)
      modifies this
      ensures user.None? && token.None? && loading == old(loading)
    {
      if callFails {
        token := None;
        user := None;
      } else {
        token := None;
        user := None;
      }
    }

    /** `checkAuth`: signs in the mock user when a token is stored, leaves
        the user alone otherwise, and always ends loading. */
    method CheckAuth()
      modifies this
      ensures HasToken(old(token)) ==> user == Some(MockUser)
      ensures !HasToken(old(token)) ==> user == old(user)
      ensures !loading && token == old(token)
    {
      if HasToken(token) {
        user := Some(MockUser);
      }
      loading := false;
    }

    /** `reset` */
    method Reset()
      modifies this
      ensures user.None? && !loading && token.None?
    {
      token := None;
      user := None;
      loading := false;
    }
  }
}
