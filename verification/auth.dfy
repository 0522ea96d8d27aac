/** The authentication decisions of lib/auth.ts over a snapshot of the user
    collection. An exception thrown by the store is not modelled. */
module Auth {
  import opened Wrappers
  import opened Entities
  import opened Collections
  import opened Database
  import opened Text

  /** `AuthUser`: a stored user with `isAuthenticated: true`, or the
      unauthenticated marker with a null farcasterId. */
  datatype AuthUser = Authenticated(user: User) | Unauthenticated

  /** `authenticateUser`: an empty id, or one no user carries, is
      unauthenticated; otherwise the first user with that farcasterId. */
  function AuthenticateUser(users: seq<User>, farcasterId: string): (r: AuthUser)
    ensures r.Authenticated? <==>
      farcasterId != "" && exists i :: 0 <= i < |users| && users[i].farcasterId == Some(farcasterId)
    ensures r.Authenticated? ==> r.user in users && r.user.farcasterId == Some(farcasterId)
    ensures r.Authenticated? ==> Some(r.user) == GetUserByFarcasterId(users, farcasterId)
  {
    if farcasterId == "" then Unauthenticated
    else match GetUserByFarcasterId(users, farcasterId)
      case None => Unauthenticated
      case Some(u) => Authenticated(u)
  }

  /** The role every self-registered account starts with. */
  const DefaultRole := "Team Member"

  /** The users after `createUserAccount`, and the account it returns. */
  datatype Account = Account(users: seq<User>, user: User)

  /** `createUserAccount`: an existing farcasterId returns that user and
      writes nothing; a new one appends exactly one user, under `freshId`,
      with the default role and no skills. */
  function CreateUserAccount(users: seq<User>, farcasterId: string, displayName: string,
                             avatar: Option<string>, freshId: string): (r: Account)
    ensures GetUserByFarcasterId(users, farcasterId).Some? ==>
      r.users == users && r.user == GetUserByFarcasterId(users, farcasterId).value
    ensures GetUserByFarcasterId(users, farcasterId).None? ==>
      && r.users == users + [r.user]
      && r.user == User(freshId, Some(farcasterId), displayName, DefaultRole, [], avatar)
    ensures r.user.farcasterId == Some(farcasterId)
  {
    match GetUserByFarcasterId(users, farcasterId)
    case Some(existing) => Account(users, existing)
    case None =>
      var w := CreateUser(users, User("", Some(farcasterId), displayName, DefaultRole, [], avatar), freshId);
      Account(w.items, w.record)
  }

  /** Registering and then signing in with a non-empty farcasterId finds the
      registered account, whether it was created or already there; the users
      grow by at most one. */
  lemma RegisterThenAuthenticate(users: seq<User>, farcasterId: string, displayName: string,
                                 avatar: Option<string>, freshId: string)
    requires farcasterId != ""
    ensures var a := CreateUserAccount(users, farcasterId, displayName, avatar, freshId);
      && AuthenticateUser(a.users, farcasterId) == Authenticated(a.user)
      && |users| <= |a.users| <= |users| + 1
  {
    if GetUserByFarcasterId(users, farcasterId).None? {
      var draft := User("", Some(farcasterId), displayName, DefaultRole, [], avatar);
      CreateUserThenGetByFarcasterId(users, draft, freshId, farcasterId);
    }
  }

  /** Registering twice with the same farcasterId creates one account. */
  lemma RegisterIdempotent(users: seq<User>, farcasterId: string, displayName: string,
                           avatar: Option<string>, freshId: string, name2: string,
                           avatar2: Option<string>, freshId2: string)
    ensures var a := CreateUserAccount(users, farcasterId, displayName, avatar, freshId);
      var b := CreateUserAccount(a.users, farcasterId, name2, avatar2, freshId2);
      b.users == a.users && b.user == a.user
  {
    if GetUserByFarcasterId(users, farcasterId).None? {
      var draft := User("", Some(farcasterId), displayName, DefaultRole, [], avatar);
      CreateUserThenGetByFarcasterId(users, draft, freshId, farcasterId);
    }
  }

  /** `getCurrentUser`: the `fid` of the client context, if any, printed in
      decimal and authenticated. A missing fid and the falsy fid 0 are both
      unauthenticated. */
  function CurrentUser(users: seq<User>, fid: Option<nat>): (r: AuthUser)
    ensures fid.None? || fid == Some(0) ==> r == Unauthenticated
    ensures fid.Some? && fid.value != 0 ==>
      (r.Authenticated? <==> exists u :: u in users && u.farcasterId == Some(Decimal(fid.value)))
    ensures r.Authenticated? ==> r.user in users && r.user.farcasterId == Some(Decimal(fid.value))
    ensures r.Authenticated? ==> Some(r.user) == GetUserByFarcasterId(users, Decimal(fid.value))
  {
    match fid
    case None => Unauthenticated
    case Some(n) => if n == 0 then Unauthenticated else AuthenticateUser(users, Decimal(n))
  }

  /** A client whose fid was registered is the current user: the account
      created (or found) for the fid's decimal form is the one signed in. */
  lemma RegisterThenCurrentUser(users: seq<User>, fid: nat, displayName: string,
                                avatar: Option<string>, freshId: string)
    requires fid != 0
    ensures var a := CreateUserAccount(users, Decimal(fid), displayName, avatar, freshId);
      CurrentUser(a.users, Some(fid)) == Authenticated(a.user)
  {
    RegisterThenAuthenticate(users, Decimal(fid), displayName, avatar, freshId);
  }

  const AuthenticationRequired := "Authentication required"

  /** `requireAuth`: the user when authenticated, the thrown message
      otherwise. */
  function RequireAuth(u: AuthUser): (r: Result<User, string>)
    ensures r.Failure? <==> u.Unauthenticated?
    ensures r.Failure? ==> r.error == AuthenticationRequired
    ensures r.Success? ==> Authenticated(r.value) == u
  {
    match u
    case Authenticated(user) => Success(user)
    case Unauthenticated => Failure(AuthenticationRequired)
  }

  /** `hasRole`: the roles agree ignoring ASCII case, or the user is an
      admin in any case. */
  function HasRole(user: User, requiredRole: string): (b: bool)
    ensures Lower(user.role) == "admin" ==> b
    ensures Lower(user.role) == Lower(requiredRole) ==> b
    ensures b ==> Lower(user.role) == Lower(requiredRole) || Lower(user.role) == "admin"
  {
    Lower(user.role) == Lower(requiredRole) || Lower(user.role) == "admin"
  }

  /** Neither side's letter case matters, and an admin passes every check. */
  lemma HasRoleIgnoresCase(user: User, requiredRole: string)
    ensures HasRole(user, requiredRole) == HasRole(user, Lower(requiredRole))
    ensures HasRole(user, requiredRole) == HasRole(user.(role := Lower(user.role)), requiredRole)
    ensures user.role == "ADMIN" || user.role == "Admin" ==> HasRole(user, requiredRole)
    ensures HasRole(user, user.role)
  {
    LowerIdempotent(requiredRole);
    LowerIdempotent(user.role);
    LowerExamples();
  }

  /** A default account holds its own role and no admin rights. */
  lemma DefaultRoleIsNotAdmin(user: User)
    requires user.role == DefaultRole
    ensures HasRole(user, "team member")
    ensures !HasRole(user, "admin")
  {
    LowerExamples();
  }
}
