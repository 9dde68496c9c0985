/**
 * The signed-in user of the client (me.store.ts). Every action waits for
 * one request; its reply is given: the data it carries, or a thrown error.
 */
module MeStore {
  import opened Outcomes

  /** The user record; an id of 0 is falsy. */
  datatype User = User(id: nat, name: string, email: string, isAdmin: bool, hasPublicFavourites: bool)

  /**
   * A request's reply: an object with its data field, null included; null
   * itself, which is what the refresh endpoint's 401 resolves to; or the
   * request threw.
   */
  datatype Reply = Data(data: Option<User>) | NullReply | Threw

  /** `NullDestructured`: reading `data` out of a null reply throws a TypeError. */
  datatype ActionError = NotAuthenticated | RequestFailed | NullDestructured

  /** What an action that destructures the reply throws when there is no object to read `data` from. */
  function ReplyError(reply: Reply): (e: ActionError)
    requires !reply.Data?
    ensures e == RequestFailed <==> reply.Threw?
    ensures e == NullDestructured <==> reply.NullReply?
  {
    if reply.Threw? then RequestFailed else NullDestructured
  }

  /** `isAdmin`: false when nobody is signed in. */
  function IsAdmin(user: Option<User>): (b: bool)
    ensures b <==> user.Some? && user.value.isAdmin
  {
    if user.Some? then user.value.isAdmin else false
  }

  /** The error of a fail-fast getter read while nobody is signed in. */
  function NotCallable(field: string): string {
    "user." + field + " is not callable"
  }

  /** The fail-fast getters: the field of the signed-in user, or an error naming the field. */
  function Id(user: Option<User>): (r: Result<nat, string>)
    ensures r.Err? <==> user.None?
    ensures r.Err? ==> r.error == NotCallable("id")
    ensures r.Ok? ==> r.value == user.value.id
  {
    if user.Some? then Ok(user.value.id) else Err(NotCallable("id"))
  }

  function Name(user: Option<User>): (r: Result<string, string>)
    ensures r.Err? <==> user.None?
    ensures r.Err? ==> r.error == NotCallable("name")
    ensures r.Ok? ==> r.value == user.value.name
  {
    if user.Some? then Ok(user.value.name) else Err(NotCallable("name"))
  }

  function Email(user: Option<User>): (r: Result<string, string>)
    ensures r.Err? <==> user.None?
    ensures r.Err? ==> r.error == NotCallable("email")
    ensures r.Ok? ==> r.value == user.value.email
  {
    if user.Some? then Ok(user.value.email) else Err(NotCallable("email"))
  }

  function HasPublicFavourites(user: Option<User>): (r: Result<bool, string>)
    ensures r.Err? <==> user.None?
    ensures r.Err? ==> r.error == NotCallable("hasPublicFavourites")
    ensures r.Ok? ==> r.value == user.value.hasPublicFavourites
  {
    if user.Some? then Ok(user.value.hasPublicFavourites) else Err(NotCallable("hasPublicFavourites"))
  }

  /** `update` signs out again exactly when a non-empty new email differs from the current one. */
  predicate NeedsReauth(current: User, newEmail: Option<string>) {
    newEmail.Some? && newEmail.value != "" && newEmail.value != current.email
  }

  class Store {
    var isInitialized: bool
    var isAuthenticated: bool
    var user: Option<User>

    constructor()
      ensures !isInitialized && !isAuthenticated && user == None
    {
      isInitialized := false;
      isAuthenticated := false;
      user := None;
    }

    /** `init`: skipped once initialised and signed in; otherwise the refresh reply signs in a user with a truthy id. */
    method Init(reply: Reply) returns (requested: bool, r: Result<(), ActionError>)
      modifies this
      ensures requested <==> !(old(isInitialized) && old(isAuthenticated))
      ensures !requested ==> r == Ok(()) && isInitialized == old(isInitialized) && isAuthenticated == old(isAuthenticated) && user == old(user)
      ensures requested && !reply.Data? ==> (r == Err(ReplyError(reply))
        && isInitialized == old(isInitialized) && isAuthenticated == old(isAuthenticated) && user == old(user))
      ensures requested && reply.Data? ==> (r == Ok(()) && isInitialized
        && (if reply.data.Some? && reply.data.value.id != 0 then user == reply.data && isAuthenticated
            else user == old(user) && isAuthenticated == old(isAuthenticated)))
    {
      if isInitialized && isAuthenticated {
        return false, Ok(());
      }
      requested := true;
      if !reply.Data? {
        return requested, Err(ReplyError(reply));
      }
      isInitialized := true;
      if reply.data.Some? && reply.data.value.id != 0 {
        user := reply.data;
        isAuthenticated := true;
      }
      r := Ok(());
    }

    /** `login`: a reply with data signs that user in; one without changes nothing. */
    method Login(reply: Reply) returns (r: Result<(), ActionError>)
      modifies this
      ensures r.Err? <==> !reply.Data?
      ensures r.Err? ==> r.error == ReplyError(reply)
      ensures reply.Data? && reply.data.Some? ==> user == reply.data && isAuthenticated
      ensures !(reply.Data? && reply.data.Some?) ==> user == old(user) && isAuthenticated == old(isAuthenticated)
      ensures isInitialized == old(isInitialized)
    {
      if !reply.Data? {
        return Err(ReplyError(reply));
      }
      if reply.data.Some? {
        user := reply.data;
        isAuthenticated := true;
      }
      r := Ok(());
    }

    /** `logout`: once the request is done, nobody is signed in. */
    method Logout(fails: bool) returns (r: Result<(), ActionError>)
      modifies this
      ensures r == (if fails then Err(RequestFailed) else Ok(()))
      ensures !fails ==> user == None && !isAuthenticated
      ensures fails ==> user == old(user) && isAuthenticated == old(isAuthenticated)
      ensures isInitialized == old(isInitialized)
    {
      if fails {
        return Err(RequestFailed);
      }
      user := None;
      isAuthenticated := false;
      r := Ok(());
    }

    /**
     * `update`: refused without a request when nobody is signed in; the
     * reply's data replaces the user, and a changed email signs out.
     */
    method Update(newEmail: Option<string>, reply: Reply, logoutFails: bool) returns (requested: bool, loggedOut: bool, r: Result<(), ActionError>)
      modifies this
      ensures old(user).None? ==> !requested && !loggedOut && r == Err(NotAuthenticated) && user == old(user) && isAuthenticated == old(isAuthenticated)
      ensures old(user).Some? ==> requested
      ensures loggedOut <==> old(user).Some? && reply.Data? && NeedsReauth(old(user).value, newEmail)
      ensures old(user).Some? && !reply.Data? ==> r == Err(ReplyError(reply)) && user == old(user) && isAuthenticated == old(isAuthenticated)
      ensures old(user).Some? && reply.Data? && !loggedOut ==> r == Ok(()) && user == reply.data && isAuthenticated == old(isAuthenticated)
      ensures loggedOut && !logoutFails ==> r == Ok(()) && user == None && !isAuthenticated
      ensures loggedOut && logoutFails ==> r == Err(RequestFailed) && user == reply.data && isAuthenticated == old(isAuthenticated)
      ensures isInitialized == old(isInitialized)
    {
      if user.None? {
        return false, false, Err(NotAuthenticated);
      }
      var needsReauth := NeedsReauth(user.value, newEmail);
      requested := true;
      if !reply.Data? {
        return requested, false, Err(ReplyError(reply));
      }
      user := reply.data;
      loggedOut := needsReauth;
      if needsReauth {
        r := Logout(logoutFails);
        return;
      }
      r := Ok(());
    }

    /** `deleteAccount`: refused without a request when nobody is signed in; afterwards nobody is. */
    method DeleteAccount(fails: bool) returns (requested: bool, r: Result<(), ActionError>)
      modifies this
      ensures requested <==> old(user).Some?
      ensures !requested ==> r == Err(NotAuthenticated)
      ensures requested ==> (r.Err? <==> fails)
      ensures requested && !fails ==> user == None && !isAuthenticated
      ensures !requested || fails ==> user == old(user) && isAuthenticated == old(isAuthenticated)
      ensures isInitialized == old(isInitialized)
    {
      if user.None? {
        return false, Err(NotAuthenticated);
      }
      requested := true;
      if fails {
        return requested, Err(RequestFailed);
      }
      user := None;
      isAuthenticated := false;
      r := Ok(());
    }
  }
}
