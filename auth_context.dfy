/** Who is signed in. The session token lives in browser storage under
    "token"; on mount a stored token is checked against the server, and
    signing out forgets both the token and the user. */
module AuthContext {
  import opened Wrappers
  import opened Entities

  const TokenKey := "token"

  /** `localStorage.getItem('token')` is truthy: a missing entry (null) and an
      empty string both count as no token. */
  predicate HasToken(storage: map<string, string>)
    ensures TokenKey !in storage ==> !HasToken(storage)
    ensures TokenKey in storage && storage[TokenKey] == "" ==> !HasToken(storage)
  {
    TokenKey in storage && storage[TokenKey] != ""
  }

  class AuthProvider {
    var user: Option<User>
    var loading: bool
    var storage: map<string, string>

    constructor (initialStorage: map<string, string>)
      ensures user == None && loading && storage == initialStorage
    {
      user := None;
      loading := true;
      storage := initialStorage;
    }

    /** The mount-time check. Without a token nothing is requested. With one,
        `getMe` decides: its user is taken, or the token is dropped and the user
        cleared. Every path ends with `loading` false. */
    method Mount(getMe: Response<User>) returns (effects: seq<Effect>)
      modifies this
      ensures !loading
      ensures !HasToken(old(storage)) ==>
        (effects == [] && user == old(user) && storage == old(storage))
      ensures HasToken(old(storage)) && getMe.Ok? ==>
        (effects == [Send(GetMe)] && user == Some(getMe.data) && storage == old(storage))
      ensures HasToken(old(storage)) && getMe.Failed? ==>
        (effects == [Send(GetMe)] && user == None && storage == old(storage) - {TokenKey})
    {
      if HasToken(storage) {
        effects := [Send(GetMe)];
        if getMe.Ok? {
          user := Some(getMe.data);
        } else {
          storage := storage - {TokenKey};
          user := None;
        }
        loading := false;
      } else {
        effects := [];
        loading := false;
      }
    }

    /** Signing out drops the token and the user; `loading` is left alone. */
    method Logout()
      modifies this`storage, this`user
      ensures storage == old(storage) - {TokenKey} && !HasToken(storage)
      ensures user == None
    {
      storage := storage - {TokenKey};
      user := None;
    }

    method SetUser(u: Option<User>)
      modifies this`user
      ensures user == u
    {
      user := u;
    }
  }
}
