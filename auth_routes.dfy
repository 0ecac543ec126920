/** The account routes of `limitless-backend` (routes/auth.js): register
    and login, issuing a token whose payload names the account. */
module AuthRoutes {
  import opened Common
  import opened Lists
  import opened AccountModel
  import opened AuthMiddleware

  /** The body of POST /api/auth/register. */
  datatype RegisterRequest = RegisterRequest(
    email: Option<string>, password: Option<string>, name: Option<string>,
    country: Option<string>, role: Option<string>)

  /** The body of POST /api/auth/login. */
  datatype LoginRequest = LoginRequest(email: Option<string>, password: Option<string>)

  /** The fields register checks, in the order it reports them. */
  const RegisterFields: seq<string> := ["email", "password", "name", "country", "role"]

  predicate RegisterGiven(q: RegisterRequest, f: string) {
    if f == "email" then Present(q.email)
    else if f == "password" then Present(q.password)
    else if f == "name" then Present(q.name)
    else if f == "country" then Present(q.country)
    else if f == "role" then Present(q.role)
    else true
  }

  /** The fields flagged true in register's `missing` object, in order. */
  function MissingRegisterFields(q: RegisterRequest): (r: seq<string>)
    ensures "email" in r <==> !Present(q.email)
    ensures "password" in r <==> !Present(q.password)
    ensures "name" in r <==> !Present(q.name)
    ensures "country" in r <==> !Present(q.country)
    ensures "role" in r <==> !Present(q.role)
  {
    var fs := RegisterFields;
    assert fs[0] == "email" && fs[1] == "password" && fs[2] == "name";
    assert fs[3] == "country" && fs[4] == "role";
    Filter(fs, RegisterFalsy(q))
  }

  /** The test `MissingRegisterFields` filters with. */
  function RegisterFalsy(q: RegisterRequest): string -> bool {
    (f: string) => !RegisterGiven(q, f)
  }

  /** Only checked fields are reported, in the route's order. */
  lemma MissingRegisterFieldsInOrder(q: RegisterRequest)
    ensures IsSubsequence(MissingRegisterFields(q), RegisterFields)
  {
    FilterIsSubsequence(RegisterFields, RegisterFalsy(q));
  }

  /** A register request is complete exactly when all five are truthy. */
  lemma RegisterCompleteIff(q: RegisterRequest)
    ensures MissingRegisterFields(q) == [] <==>
      Present(q.email) && Present(q.password) && Present(q.name) && Present(q.country) && Present(q.role)
  {
    var r := MissingRegisterFields(q);
    if r != [] {
      assert r[0] in r;
    }
  }

  /** The fields flagged true in login's `missing` object, in order. */
  function MissingLoginFields(q: LoginRequest): (r: seq<string>)
    ensures r == [] <==> Present(q.email) && Present(q.password)
    ensures "email" in r <==> !Present(q.email)
    ensures "password" in r <==> !Present(q.password)
  {
    (if Present(q.email) then [] else ["email"]) + (if Present(q.password) then [] else ["password"])
  }

  /** `expiresIn: '1d'`, in seconds. */
  const OneDay: int := 86400

  /** The result of `jwt.sign(payload, secret, { expiresIn: '1d' })`. */
  datatype SignedToken = SignedToken(payload: Claims, expiresInSeconds: int)

  /** The token issued for an account: its id, email and role, valid for a
      day. The middleware reads the id straight from it. */
  function Sign(a: Account): (t: SignedToken)
    ensures t.payload.id == Some(a.id) && t.payload.altId == None
    ensures t.payload.email == Some(a.email) && t.payload.role == Some(a.role.Name())
    ensures t.expiresInSeconds == 86400
  {
    SignedToken(Claims(Some(a.id), None, Some(a.email), Some(a.role.Name())), OneDay)
  }

  /** The `athlete` object of the responses. */
  datatype PublicAccount = PublicAccount(id: Id, name: string, email: string, role: string)

  /** The body of a successful register or login. */
  datatype AuthResponse = AuthResponse(token: SignedToken, athlete: PublicAccount)

  /** The response for an account: the token and the four public fields. */
  function Respond(a: Account): (r: AuthResponse)
    ensures r.token == Sign(a)
    ensures r.athlete == PublicAccount(a.id, a.name, a.email, a.role.Name())
  {
    AuthResponse(Sign(a), PublicAccount(a.id, a.name, a.email, a.role.Name()))
  }

  /** The response never depends on the password: accounts that differ
      only there get the same response. */
  lemma RespondIgnoresPassword(a: Account, c: Credential)
    ensures Respond(a.(password := c)) == Respond(a)
  {
  }

  /** The account register stores for a complete request with a valid role. */
  function Registered(id: Id, q: RegisterRequest): Account
    requires MissingRegisterFields(q) == [] && ParseRole(q.role.value).Some?
  {
    PreSave(NewAccount(id, q.email.value, q.password.value, q.name.value, q.country.value,
                       ParseRole(q.role.value).value))
  }

  /** POST /api/auth/register. The checks run in order: a falsy field (400
      with the list), an unknown role (400), an email already taken (400);
      each leaves the store unchanged. Otherwise exactly one account is
      added, with the password hashed, and the response names it. */
  method Register(store: AthleteCollection, q: RegisterRequest) returns (r: Result<AuthResponse>)
    requires store.Valid()
    modifies store
    ensures store.Valid()
    ensures MissingRegisterFields(q) != [] ==>
      r == Err(BadRequest("All fields are required", MissingRegisterFields(q)))
      && store.accounts == old(store.accounts) && store.nextId == old(store.nextId)
    ensures MissingRegisterFields(q) == [] && ParseRole(q.role.value).None? ==>
      r == Err(BadRequest("Invalid role. Must be either athlete or coach", []))
      && store.accounts == old(store.accounts) && store.nextId == old(store.nextId)
    ensures MissingRegisterFields(q) == [] && ParseRole(q.role.value).Some?
            && EmailIndex(old(store.accounts), q.email.value) != -1 ==>
      r == Err(BadRequest("User already exists with this email", []))
      && store.accounts == old(store.accounts) && store.nextId == old(store.nextId)
    ensures MissingRegisterFields(q) == [] && ParseRole(q.role.value).Some?
            && EmailIndex(old(store.accounts), q.email.value) == -1 ==>
      store.accounts == old(store.accounts) + [Registered(old(store.nextId), q)]
      && r == Ok(Respond(Registered(old(store.nextId), q)))
    ensures old(PasswordsHashed(store.accounts)) ==> PasswordsHashed(store.accounts)
  {
    var missing := MissingRegisterFields(q);
    if missing != [] {
      return Err(BadRequest("All fields are required", missing));
    }
    var role := ParseRole(q.role.value);
    if role.None? {
      return Err(BadRequest("Invalid role. Must be either athlete or coach", []));
    }
    if EmailIndex(store.accounts, q.email.value) != -1 {
      return Err(BadRequest("User already exists with this email", []));
    }
    var a := NewAccount(store.nextId, q.email.value, q.password.value, q.name.value,
                        q.country.value, role.value);
    var saved := store.Insert(a);
    r := Ok(Respond(saved.value));
  }

  /** POST /api/auth/login. Both fields must be truthy; then an unknown
      email and a wrong password get the very same 400, so a caller cannot
      tell which one failed. */
  function Login(accounts: seq<Account>, q: LoginRequest): (r: Result<AuthResponse>)
    ensures MissingLoginFields(q) != [] ==>
      r == Err(BadRequest("Email and password are required", MissingLoginFields(q)))
    ensures MissingLoginFields(q) == [] && r.Err? ==> r == Err(BadRequest("Invalid credentials", []))
    ensures r.Ok? <==>
      MissingLoginFields(q) == [] && EmailIndex(accounts, q.email.value) != -1
      && Matches(q.password.value, accounts[EmailIndex(accounts, q.email.value)].password)
    ensures r.Ok? ==> r == Ok(Respond(accounts[EmailIndex(accounts, q.email.value)]))
  {
    var missing := MissingLoginFields(q);
    if missing != [] then Err(BadRequest("Email and password are required", missing))
    else
      var i := EmailIndex(accounts, q.email.value);
      if i == -1 then Err(BadRequest("Invalid credentials", []))
      else if !Matches(q.password.value, accounts[i].password) then Err(BadRequest("Invalid credentials", []))
      else Ok(Respond(accounts[i]))
  }

  /** Whoever registers can log in straight away with the same email and
      password, and gets the response register gave. */
  lemma RegisteredCanLogIn(accounts: seq<Account>, nextId: Id, q: RegisterRequest)
    requires MissingRegisterFields(q) == [] && ParseRole(q.role.value).Some?
    requires EmailIndex(accounts, q.email.value) == -1
    ensures Login(accounts + [Registered(nextId, q)], LoginRequest(q.email, q.password))
            == Ok(Respond(Registered(nextId, q)))
  {
    RegisterCompleteIff(q);
    var a := Registered(nextId, q);
    var s := accounts + [a];
    var i := EmailIndex(s, q.email.value);
    assert s[|accounts|] == a;
    assert i == |accounts|;
  }

  /** Only the password that was registered logs in. */
  lemma OnlyRegisteredPasswordLogsIn(accounts: seq<Account>, nextId: Id, q: RegisterRequest, p: string)
    requires MissingRegisterFields(q) == [] && ParseRole(q.role.value).Some?
    requires EmailIndex(accounts, q.email.value) == -1
    requires p != q.password.value
    ensures Login(accounts + [Registered(nextId, q)], LoginRequest(q.email, Some(p))).Err?
  {
    RegisterCompleteIff(q);
    var a := Registered(nextId, q);
    var s := accounts + [a];
    var i := EmailIndex(s, q.email.value);
    assert s[|accounts|] == a;
    assert i == |accounts|;
  }
}
