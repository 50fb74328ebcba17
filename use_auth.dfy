/** The session hook: who is signed in, and whether the start-up identity
    query is still pending. */
module UseAuth {
  import opened Wrappers
  import opened Entities
  import opened RecipeApi

  /** The hook's two pieces of state. */
  class Session {
    var user: Option<User>
    var loading: bool

    /** Before the identity query settles: nobody signed in, still loading. */
    constructor ()
      ensures user == None && loading
    {
      user, loading := None, true;
    }

    /** The start-up effect: the current user is whatever the identity query
        yields (nobody on a 401), nobody when the query fails, and loading
        ends in every case. */
    method Start(reply: Fetched<User>)
      modifies this
      ensures !loading
      ensures CurrentUserOutcome(reply).Ok? ==> user == CurrentUserOutcome(reply).value
      ensures CurrentUserOutcome(reply).Fail? ==> user == None
    {
      var outcome := CurrentUserOutcome(reply);
      match outcome {
        case Ok(u) => user := u;
        case Fail(_) => user := None;
      }
      loading := false;
    }

    /** `login`: a successful request makes the returned identity current; a
        failed one leaves the user as it was and rejects with its message. */
    method Login(reply: Fetched<User>) returns (res: Outcome<()>)
      modifies this`user
      ensures res == Discard(Settle(reply))
      ensures user == (if res.Ok? then Some(Settle(reply).value) else old(user))
    {
      var outcome := Settle(reply);
      match outcome {
        case Ok(u) => user := Some(u);
        case Fail(_) =>
      }
      res := Discard(outcome);
    }

    /** `register`: the same contract as `login`, against its own endpoint;
        registering also signs in. */
    method Register(reply: Fetched<User>) returns (res: Outcome<()>)
      modifies this`user
      ensures res == Discard(Settle(reply))
      ensures user == (if res.Ok? then Some(Settle(reply).value) else old(user))
    {
      var outcome := Settle(reply);
      match outcome {
        case Ok(u) => user := Some(u);
        case Fail(_) =>
      }
      res := Discard(outcome);
    }

    /** `logout`: once the request returns, whatever its status, nobody is
        signed in; a rejected request skips the clearing. */
    method Logout(reply: Fetched<()>) returns (res: Outcome<()>)
      modifies this`user
      ensures res == LogoutOutcome(reply)
      ensures user == (if res.Ok? then None else old(user))
    {
      res := LogoutOutcome(reply);
      if res.Ok? {
        user := None;
      }
    }
  }
}
