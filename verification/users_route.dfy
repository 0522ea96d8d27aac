/** app/api/users/route.ts: looking a user up by farcasterId, listing all
    users, and registering a user from a JSON body. A query parameter or body
    string that is absent or empty is "". */
module UsersRoute {
  import opened Wrappers
  import opened Entities
  import opened Collections
  import opened Http
  import opened Database

  datatype UsersReply = OneUser(user: User) | AllUsers(users: seq<User>)

  const UserNotFound := ApiError(NotFound, "User not found")

  /** `GET /api/users`: with a farcasterId, the first user carrying it or 404;
      without one, every user. */
  function UsersGet(users: seq<User>, farcasterId: string): (r: Result<UsersReply, ApiError>)
    ensures farcasterId == "" ==> r == Success(AllUsers(users))
    ensures farcasterId != "" ==>
      (r == Failure(UserNotFound) <==> forall i :: 0 <= i < |users| ==> users[i].farcasterId != Some(farcasterId))
    ensures farcasterId != "" && r.Success? ==>
      r.value.OneUser? && r.value.user in users && r.value.user.farcasterId == Some(farcasterId)
    ensures farcasterId != "" && GetUserByFarcasterId(users, farcasterId).Some? ==>
      r == Success(OneUser(GetUserByFarcasterId(users, farcasterId).value))
  {
    if farcasterId == "" then Success(AllUsers(users))
    else match GetUserByFarcasterId(users, farcasterId)
      case None => Failure(UserNotFound)
      case Some(u) => Success(OneUser(u))
  }

  /** The JSON body of `POST /api/users`; `skills` is `None` when absent or
      falsy. */
  datatype UserBody = UserBody(
    farcasterId: string,
    name: string,
    role: string,
    skills: Option<seq<string>>,
    avatar: Option<string>)

  const MissingUserFields := ApiError(BadRequest, "Missing required fields: farcasterId, name, role")
  const DuplicateUser := ApiError(Conflict, "User with this Farcaster ID already exists")

  predicate ValidUserBody(body: UserBody) {
    body.farcasterId != "" && body.name != "" && body.role != ""
  }

  /** `POST /api/users`: 400 for a missing field, then 409 for a farcasterId
      already in use; otherwise one user is appended under `freshId`, with no
      skills when none are given. */
  function UsersPost(users: seq<User>, body: UserBody, freshId: string): (r: Result<Written<User>, ApiError>)
    ensures r == Failure(MissingUserFields) <==> !ValidUserBody(body)
    ensures r == Failure(DuplicateUser) <==>
      ValidUserBody(body) && exists i :: 0 <= i < |users| && users[i].farcasterId == Some(body.farcasterId)
    ensures r.Success? <==> ValidUserBody(body) && GetUserByFarcasterId(users, body.farcasterId).None?
    ensures r.Success? ==>
      && r.value.items == users + [r.value.record]
      && r.value.record == User(freshId, Some(body.farcasterId), body.name, body.role,
                                body.skills.GetOr([]), body.avatar)
  {
    if !ValidUserBody(body) then Failure(MissingUserFields)
    else if GetUserByFarcasterId(users, body.farcasterId).Some? then Failure(DuplicateUser)
    else
      var draft := User("", Some(body.farcasterId), body.name, body.role, body.skills.GetOr([]), body.avatar);
      var w := CreateUser(users, draft, freshId);
      assert w.items == users + [w.record];
      Success(w)
  }

  /** A registered user is then found by farcasterId, and registering the same
      farcasterId again is rejected with 409 and creates nothing. */
  lemma RegisterThenLookUp(users: seq<User>, body: UserBody, freshId: string, again: UserBody, freshId2: string)
    requires UsersPost(users, body, freshId).Success?
    requires ValidUserBody(again) && again.farcasterId == body.farcasterId
    ensures var w := UsersPost(users, body, freshId).value;
      && UsersGet(w.items, body.farcasterId) == Success(OneUser(w.record))
      && UsersPost(w.items, again, freshId2) == Failure(DuplicateUser)
  {
    var w := UsersPost(users, body, freshId).value;
    var draft := w.record.(userId := "");
    assert CreateUser(users, draft, freshId) == w;
    CreateUserThenGetByFarcasterId(users, draft, freshId, body.farcasterId);
  }
}
