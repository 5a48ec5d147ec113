/** The session store of src/contexts/AuthContext.tsx: the signed-in
    administrator, the loading flag, and the credential in localStorage. Each
    backend call is one atomic step whose reply is a parameter; a failing reply
    passes through the response interceptor first, as every axios call does. */
module Auth {
  import opened Wrappers
  import opened Records
  import opened Http
  import opened Api

  /** The payload of a successful login. */
  datatype LoginData = LoginData(token: string, user: AdminUser)

  /** What ProtectedRoute renders for the current session. */
  datatype Gate = Loading | Content | RedirectToLogin

  class AuthProvider {
    const storage: LocalStorage
    var user: Option<AdminUser>
    var isLoading: bool

    constructor (storage: LocalStorage)
      ensures this.storage == storage
      ensures user == None && isLoading
    {
      this.storage := storage;
      user := None;
      isLoading := true;
    }

    /** `isAuthenticated: !!user`. */
    predicate IsAuthenticated()
      reads this
    {
      user.Some?
    }

    function RouteGate(): Gate
      reads this
    {
      if isLoading then Loading else if IsAuthenticated() then Content else RedirectToLogin
    }

    /** `verifyToken`: with a stored credential, fetch the profile; on success the
        profile becomes the user, on any failure the credential is removed and
        the user cleared; in every case loading ends. */
    method VerifyToken(profile: Reply<AdminUser>) returns (calls: seq<Call>)
      modifies this, storage
      ensures !isLoading && RouteGate() != Loading
      ensures !Truthy(old(storage.GetItem(TokenKey))) ==>
        calls == [] && user == old(user) && storage.items == old(storage.items)
      ensures Truthy(old(storage.GetItem(TokenKey))) ==> calls == [GetAdminProfile]
      ensures Truthy(old(storage.GetItem(TokenKey))) && profile.Ok? ==>
        user == Some(profile.data) && storage.items == old(storage.items) && RouteGate() == Content
      ensures Truthy(old(storage.GetItem(TokenKey))) && profile.Failed? ==>
        user == None && storage.items == old(storage.items) - {TokenKey} && RouteGate() == RedirectToLogin
    {
      calls := [];
      var token := storage.GetItem(TokenKey);
      if Truthy(token) {
        calls := [GetAdminProfile];
        var settled := InterceptResponse(storage, profile);
        match settled {
          case Ok(data) =>
            user := Some(data);
          case Failed(_, _) =>
            storage.RemoveItem(TokenKey);
            user := None;
        }
      }
      isLoading := false;
    }

    /** The mount effect: verify a stored credential, or stop loading at once
        when there is none, without any request. */
    method Mount(profile: Reply<AdminUser>) returns (calls: seq<Call>)
      modifies this, storage
      ensures !isLoading && RouteGate() != Loading
      ensures !Truthy(old(storage.GetItem(TokenKey))) ==>
        calls == [] && user == old(user) && storage.items == old(storage.items)
      ensures Truthy(old(storage.GetItem(TokenKey))) ==> calls == [GetAdminProfile]
      ensures Truthy(old(storage.GetItem(TokenKey))) && profile.Ok? ==>
        user == Some(profile.data) && storage.items == old(storage.items)
      ensures Truthy(old(storage.GetItem(TokenKey))) && profile.Failed? ==>
        user == None && storage.items == old(storage.items) - {TokenKey}
    {
      var token := storage.GetItem(TokenKey);
      if Truthy(token) {
        calls := VerifyToken(profile);
      } else {
        calls := [];
        isLoading := false;
      }
    }

    /** `login`: on success store the returned credential and user; on failure
        rethrow (`succeeded` is false) and keep the user. The response
        interceptor also runs on the login call, so a 401 removes a credential
        stored earlier. */
    method Login(email: string, password: string, reply: Reply<LoginData>) returns (calls: seq<Call>, succeeded: bool)
      modifies this, storage
      ensures calls == [Api.Login(email, password)]
      ensures !isLoading
      ensures succeeded <==> reply.Ok?
      ensures reply.Ok? ==>
        && user == Some(reply.data.user) && IsAuthenticated()
        && storage.items == old(storage.items)[TokenKey := reply.data.token]
      ensures reply.Failed? ==>
        user == old(user) && storage.items == StorageAfter(old(storage.items), reply)
    {
      calls := [Api.Login(email, password)];
      isLoading := true;
      var settled := InterceptResponse(storage, reply);
      match settled {
        case Ok(data) =>
          storage.SetItem(TokenKey, data.token);
          user := Some(data.user);
          succeeded := true;
        case Failed(_, _) =>
          succeeded := false;
      }
      isLoading := false;
    }

    /** `logout`: drop the credential and the user, with no backend call. */
    method Logout()
      modifies this, storage
      ensures storage.items == old(storage.items) - {TokenKey}
      ensures user == None && !IsAuthenticated()
      ensures isLoading == old(isLoading)
    {
      storage.RemoveItem(TokenKey);
      user := None;
    }
  }
}
