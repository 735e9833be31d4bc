/**
 * The users controller: for each endpoint, the fixed sequence of checks
 * that turns the store's answers into an HTTP status and a body. Each
 * action takes the shared store it was given; `modelValid` stands for the
 * framework's model-binding verdict on the request body.
 */
module UsersController {
  import opened Wrappers
  import opened Text
  import opened Users
  import opened UserStore

  /** The response shape: a field-for-field copy of a User. */
  datatype UserResponseDto = UserResponseDto(
    id: int,
    name: string,
    email: string,
    createdAt: Time,
    updatedAt: Time,
    isActive: bool)

  datatype CreateUserDto = CreateUserDto(name: string, email: string)

  datatype UpdateUserDto = UpdateUserDto(name: string, email: string, isActive: bool)

  datatype Status =
    | Ok                        // 200
    | CreatedAt(routeId: int)   // 201, with a location that names GetUser for this id
    | NoContent                 // 204
    | BadRequest                // 400
    | NotFound                  // 404
    | Conflict                  // 409
  {
    predicate IsSuccess()
    {
      Ok? || CreatedAt? || NoContent?
    }

    function Code(): (c: int)
      ensures IsSuccess() <==> 200 <= c < 300
      ensures !IsSuccess() ==> 400 <= c < 500
    {
      match this
      case Ok => 200
      case CreatedAt(_) => 201
      case NoContent => 204
      case BadRequest => 400
      case NotFound => 404
      case Conflict => 409
    }
  }

  datatype Body =
    | NoBody
    | UserBody(user: UserResponseDto)
    | UserList(users: seq<UserResponseDto>)
    | InvalidModel                        // the model-state errors
    | UserMissing(id: int)                // "user id {id} does not exist"
    | EmailInUse(email: string)           // "e-mail '{email}' is already used"
    | EmailInUseByOther(email: string)    // "e-mail '{email}' is already used by another user"

  datatype Response = Response(status: Status, body: Body)

  /** What an action does: return a response, or throw. */
  datatype ActionOutcome = Completed(response: Response) | Threw(exception: string)

  function ToDto(u: User): UserResponseDto
  {
    UserResponseDto(u.id, u.name, u.email, u.createdAt, u.updatedAt, u.isActive)
  }

  /** The copy loses nothing: different users give different DTOs. */
  lemma ToDtoInjective(a: User, b: User)
    ensures ToDto(a) == ToDto(b) <==> a == b
  {
  }

  /** `Select(u => new UserResponseDto { ... })` */
  function ToDtos(s: seq<User>): (r: seq<UserResponseDto>)
    ensures |r| == |s|
    ensures forall i :: 0 <= i < |s| ==> r[i] == ToDto(s[i])
  {
    if s == [] then [] else [ToDto(s[0])] + ToDtos(s[1..])
  }

  /** `Where(u => u.IsActive)` */
  function ActiveOnly(s: seq<User>): (r: seq<User>)
    ensures |r| <= |s|
    ensures forall u :: u in r <==> u in s && u.isActive
  {
    if s == [] then []
    else
      assert s == [s[0]] + s[1..];
      if s[0].isActive then [s[0]] + ActiveOnly(s[1..]) else ActiveOnly(s[1..])
  }

  /** Filtering keeps the relative order: an id-ascending list stays id-ascending. */
  lemma {:induction false} ActiveOnlyKeepsOrder(s: seq<User>)
    requires IdsAscending(s)
    ensures IdsAscending(ActiveOnly(s))
  {
    if s != [] {
      ActiveOnlyKeepsOrder(s[1..]);
      var t := ActiveOnly(s[1..]);
      forall i | 0 <= i < |t|
        ensures s[0].id < t[i].id
      {
        var m :| 0 <= m < |s[1..]| && s[1..][m] == t[i];
        assert s[m + 1] == t[i];
      }
    }
  }

  /** GET api/users: 200 with every stored user, in ascending id order. */
  method GetUsers(service: UserService) returns (response: Response)
    requires service.Valid()
    ensures response.status == Ok && response.body.UserList?
    ensures |response.body.users| == |service.users|
    ensures forall i :: 0 <= i < |service.users| ==> response.body.users[i] == ToDto(service.users[i])
    ensures forall i, j :: 0 <= i < j < |response.body.users| ==>
      response.body.users[i].id < response.body.users[j].id
  {
    var users := service.GetAllUsers();
    response := Response(Ok, UserList(ToDtos(users)));
  }

  /** GET api/users/{id}: 404 when no user has the id, otherwise 200 with that user. */
  method GetUser(service: UserService, id: int) returns (response: Response)
    requires service.Valid()
    ensures (forall i :: 0 <= i < |service.users| ==> service.users[i].id != id) ==>
      response == Response(NotFound, UserMissing(id))
    ensures forall i :: 0 <= i < |service.users| && service.users[i].id == id ==>
      response == Response(Ok, UserBody(ToDto(service.users[i])))
  {
    var user := service.GetUserById(id);
    if user.None? {
      return Response(NotFound, UserMissing(id));
    }
    response := Response(Ok, UserBody(ToDto(user.value)));
  }

  /**
   * POST api/users: 400 for an invalid body; 409, with the store unchanged,
   * when any user already holds the e-mail ignoring case; otherwise 201 with
   * the new record, whose name and e-mail come from the request, whose flag
   * is active and whose id and timestamps come from the store.
   */
  method CreateUser(service: UserService, modelValid: bool, request: CreateUserDto,
                    clockForCreated: Time, clockForUpdated: Time)
      returns (response: Response)
    requires service.Valid()
    modifies service
    ensures service.Valid()
    ensures !modelValid ==>
      response == Response(BadRequest, InvalidModel) && unchanged(service)
    ensures modelValid && old(service.EmailExists(request.email, None)) ==>
      response == Response(Conflict, EmailInUse(request.email)) && unchanged(service)
    ensures modelValid && !old(service.EmailExists(request.email, None)) ==>
      var created := User(old(service.nextId), request.name, request.email,
                          clockForCreated, clockForUpdated, true);
      response == Response(CreatedAt(created.id), UserBody(ToDto(created))) &&
      service.users == old(service.users) + [created] &&
      service.nextId == old(service.nextId) + 1
    ensures UniqueEmails(old(service.users)) ==> UniqueEmails(service.users)
  {
    if !modelValid {
      return Response(BadRequest, InvalidModel);
    }
    if service.EmailExists(request.email, None) {
      return Response(Conflict, EmailInUse(request.email));
    }
    var user := NewUser(clockForCreated, clockForUpdated).(name := request.name, email := request.email, isActive := true);
    ghost var before := service.users;
    var created := service.CreateUser(user, clockForCreated, clockForUpdated);
    if UniqueEmails(before) {
      AppendKeepsEmailsUnique(before, created);
    }
    response := Response(CreatedAt(created.id), UserBody(ToDto(created)));
  }

  /**
   * PUT api/users/{id}: 400 for an invalid body; 404 when no user has the
   * id; 409 when a DIFFERENT user holds the e-mail ignoring case; otherwise
   * 200 with the record as read back after the update. A user may keep its
   * own e-mail. Nothing changes on the error paths.
   */
  method UpdateUser(service: UserService, id: int, modelValid: bool, request: UpdateUserDto, now: Time)
      returns (response: Response)
    requires service.Valid()
    modifies service
    ensures service.Valid() && service.nextId == old(service.nextId)
    ensures !modelValid ==>
      response == Response(BadRequest, InvalidModel) && service.users == old(service.users)
    ensures modelValid && (forall i :: 0 <= i < |old(service.users)| ==> old(service.users)[i].id != id) ==>
      response == Response(NotFound, UserMissing(id)) && service.users == old(service.users)
    ensures forall k :: modelValid && 0 <= k < |old(service.users)| && old(service.users)[k].id == id ==>
      if old(service.EmailExists(request.email, Some(id))) then
        response == Response(Conflict, EmailInUseByOther(request.email)) &&
        service.users == old(service.users)
      else
        var u := old(service.users)[k].(name := request.name, email := request.email,
                                         isActive := request.isActive, updatedAt := now);
        response == Response(Ok, UserBody(ToDto(u))) &&
        service.users == old(service.users)[k := u]
    ensures UniqueEmails(old(service.users)) ==> UniqueEmails(service.users)
  {
    if !modelValid {
      return Response(BadRequest, InvalidModel);
    }
    var existing := service.GetUserById(id);
    if existing.None? {
      return Response(NotFound, UserMissing(id));
    }
    if service.EmailExists(request.email, Some(id)) {
      return Response(Conflict, EmailInUseByOther(request.email));
    }
    var user := NewUser(now, now).(name := request.name, email := request.email, isActive := request.isActive);
    ghost var before := service.users;
    ghost var k := FindIndex(before, id);
    var success := service.UpdateUser(id, user, now);
    if !success {
      return Response(NotFound, UserMissing(id));
    }
    UpdateThenGet(before, k, user, now);
    if UniqueEmails(before) {
      OverwriteKeepsEmailsUnique(before, k, user, now);
    }
    var updated := service.GetUserById(id);
    response := Response(Ok, UserBody(ToDto(updated.value)));
  }

  /** DELETE api/users/{id}: 204 exactly when the store removed a user, otherwise 404. */
  method DeleteUser(service: UserService, id: int) returns (response: Response)
    requires service.Valid()
    modifies service
    ensures service.Valid() && service.nextId == old(service.nextId)
    ensures (exists i :: 0 <= i < |old(service.users)| && old(service.users)[i].id == id) ==>
      response == Response(NoContent, NoBody) &&
      var k := FindIndex(old(service.users), id);
      k < |old(service.users)| && service.users == RemoveAt(old(service.users), k)
    ensures !(exists i :: 0 <= i < |old(service.users)| && old(service.users)[i].id == id) ==>
      response == Response(NotFound, UserMissing(id)) && service.users == old(service.users)
    ensures service.GetUserById(id).None?
    ensures UniqueEmails(old(service.users)) ==> UniqueEmails(service.users)
  {
    ghost var before := service.users;
    var success := service.DeleteUser(id);
    if !success {
      return Response(NotFound, UserMissing(id));
    }
    DeleteThenGet(before, FindIndex(before, id));
    response := Response(NoContent, NoBody);
  }

  /** GET api/users/active: 200 with exactly the active users, in the order of the full list. */
  method GetActiveUsers(service: UserService) returns (response: Response)
    requires service.Valid()
    ensures response == Response(Ok, UserList(ToDtos(ActiveOnly(service.users))))
    ensures forall i, j :: 0 <= i < j < |response.body.users| ==>
      response.body.users[i].id < response.body.users[j].id
  {
    var users := service.GetAllUsers();
    ActiveOnlyKeepsOrder(users);
    response := Response(Ok, UserList(ToDtos(ActiveOnly(users))));
  }

  /** GET api/users/test-exception: always throws, never completes with a response. */
  function TestException(): (outcome: ActionOutcome)
    ensures !outcome.Completed?
  {
    Threw("InvalidOperationException")
  }

  /**
   * A session against the seeded store: create, conflicting create with the
   * same e-mail in upper case, read, delete, read again.
   */
  method ExampleSession(now: Time)
  {
    var service := new UserService.Seeded(now);
    var dana := CreateUserDto("Dana Lee", "dana@x.com");
    var r1 := CreateUser(service, true, dana, now, now);
    assert r1.status == CreatedAt(4);
    var expected := UserResponseDto(4, "Dana Lee", "dana@x.com", now, now, true);
    assert r1.body == UserBody(expected);

    var shouting := CreateUserDto("Dana Lee", "DANA@X.COM");
    assert EqualsIgnoreCase(service.users[3].email, shouting.email);
    var r2 := CreateUser(service, true, shouting, now, now);
    assert r2.status == Conflict;

    var r3 := GetUser(service, 4);
    assert service.users[3].id == 4;
    assert r3 == Response(Ok, UserBody(expected));

    var r4 := DeleteUser(service, 4);
    assert r4.status == NoContent;
    var r5 := GetUser(service, 4);
    assert r5.status == NotFound;
  }
}
