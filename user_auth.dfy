/** The account controller of the older `backend` service
    (backend/src/controllers/authController.ts): register and login over a
    `users` collection, hashing the password before it is stored. */
module UserAuth {
  import opened Common
  import opened Lists
  import opened AccountModel

  /** A stored user. */
  datatype User = User(id: Id, name: string, email: string, password: Credential)

  /** `generateToken(id)`: a token naming the user id. */
  datatype UserToken = UserToken(userId: Id)

  /** The body of a successful register or login. */
  datatype UserResponse = UserResponse(id: Id, name: string, email: string, token: UserToken)

  function ResponseFor(u: User): (r: UserResponse)
    ensures r.id == u.id && r.name == u.name && r.email == u.email && r.token == UserToken(u.id)
  {
    UserResponse(u.id, u.name, u.email, UserToken(u.id))
  }

  /** `User.findOne({ email })`. */
  function UserIndex(users: seq<User>, email: string): (r: int)
    ensures r == -1 <==> forall k :: 0 <= k < |users| ==> users[k].email != email
    ensures r != -1 ==> 0 <= r < |users| && users[r].email == email
  {
    FindIndex(users, (u: User) => u.email == email)
  }

  /** Ids are below `nextId` and distinct; no password is stored in plain
      text. */
  ghost predicate ValidUsers(users: seq<User>, nextId: Id) {
    (forall i :: 0 <= i < |users| ==> users[i].id < nextId && users[i].password.Hashed?)
    && (forall i, j :: 0 <= i < j < |users| ==> users[i].id != users[j].id)
  }

  class UserStore {
    var users: seq<User>
    var nextId: Id

    ghost predicate Valid()
      reads this
    {
      ValidUsers(users, nextId)
    }

    constructor ()
      ensures Valid() && users == [] && nextId == 0
    {
      users := [];
      nextId := 0;
    }

    /** `registerUser`: an email already taken gets 400 "User already
        exists" and creates nothing; otherwise one user is created whose
        stored password is the hash of the one supplied, never the text. */
    method RegisterUser(name: string, email: string, password: string) returns (r: Result<UserResponse>)
      requires Valid()
      modifies this
      ensures Valid()
      ensures UserIndex(old(users), email) != -1 ==>
        r == Err(BadRequest("User already exists", [])) && users == old(users) && nextId == old(nextId)
      ensures UserIndex(old(users), email) == -1 ==>
        users == old(users) + [User(old(nextId), name, email, Hashed(password))]
        && nextId == old(nextId) + 1
        && r == Ok(ResponseFor(User(old(nextId), name, email, Hashed(password))))
      ensures forall i :: 0 <= i < |users| ==> users[i].password != Plain(password)
    {
      if UserIndex(users, email) != -1 {
        return Err(BadRequest("User already exists", []));
      }
      var user := User(nextId, name, email, Hashed(password));
      users := users + [user];
      nextId := nextId + 1;
      r := Ok(ResponseFor(user));
    }
  }

  /** `loginUser`: an unknown email and a wrong password get the same 400;
      otherwise the user's id, name, email and token. */
  function LoginUser(users: seq<User>, email: string, password: string): (r: Result<UserResponse>)
    ensures UserIndex(users, email) == -1 ==> r == Err(BadRequest("Invalid email or password", []))
    ensures r.Err? ==> r == Err(BadRequest("Invalid email or password", []))
    ensures r.Ok? <==> UserIndex(users, email) != -1 && Matches(password, users[UserIndex(users, email)].password)
    ensures r.Ok? ==> r.value == ResponseFor(users[UserIndex(users, email)])
  {
    var i := UserIndex(users, email);
    if i == -1 then Err(BadRequest("Invalid email or password", []))
    else if !Matches(password, users[i].password) then Err(BadRequest("Invalid email or password", []))
    else Ok(ResponseFor(users[i]))
  }

  /** A user who has just registered logs in with the same email and
      password, and with no other password. */
  lemma RegisteredUserLogsIn(users: seq<User>, id: Id, name: string, email: string, password: string, other: string)
    requires UserIndex(users, email) == -1
    requires other != password
    ensures LoginUser(users + [User(id, name, email, Hashed(password))], email, password)
            == Ok(ResponseFor(User(id, name, email, Hashed(password))))
    ensures LoginUser(users + [User(id, name, email, Hashed(password))], email, other).Err?
  {
    var s := users + [User(id, name, email, Hashed(password))];
    assert s[|users|].email == email;
    assert UserIndex(s, email) == |users|;
  }
}
