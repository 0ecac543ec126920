/** The profile routes of `limitless-backend` (routes/athlete.js): their
    own token check, reading profiles without the password, updating the
    caller's profile with `$set`, and the image upload. */
module AthleteRoutes {
  import opened Common
  import opened Text
  import opened Lists
  import opened AccountModel
  import opened AuthMiddleware
  import opened AuthRoutes

  /** The route file's own `auth`: an absent or empty token gets 401 "No
      token provided"; a token that does not verify gets 401 "Not
      authorized"; a token whose `id` names no account (or that has no `id`)
      gets 401 "Athlete not found". Otherwise the account it names. */
  function AthleteAuth(accounts: seq<Account>, header: Option<string>, verify: string -> Option<Claims>)
    : (r: Result<Account>)
    ensures !Present(ExtractToken(header)) ==> r == Err(Unauthorized("No token provided"))
    ensures Present(ExtractToken(header)) && verify(ExtractToken(header).value).None? ==>
      r == Err(Unauthorized("Not authorized"))
    ensures Present(ExtractToken(header)) && verify(ExtractToken(header).value).Some? && r.Err? ==>
      r == Err(Unauthorized("Athlete not found"))
    ensures r.Ok? <==>
      Present(ExtractToken(header)) && verify(ExtractToken(header).value).Some?
      && verify(ExtractToken(header).value).value.id.Some?
      && AccountIndex(accounts, verify(ExtractToken(header).value).value.id.value) != -1
    ensures r.Ok? ==>
      r.value in accounts && Some(r.value.id) == verify(ExtractToken(header).value).value.id
  {
    var token := ExtractToken(header);
    if !Present(token) then Err(Unauthorized("No token provided"))
    else
      match verify(token.value)
      case None => Err(Unauthorized("Not authorized"))
      case Some(c) =>
        if c.id.None? then Err(Unauthorized("Athlete not found"))
        else
          var i := AccountIndex(accounts, c.id.value);
          if i == -1 then Err(Unauthorized("Athlete not found")) else Ok(accounts[i])
  }

  /** A token issued by register or login for a stored account opens the
      profile routes as that account. */
  lemma IssuedTokenOpensProfile(accounts: seq<Account>, i: nat, t: string, verify: string -> Option<Claims>)
    requires i < |accounts|
    requires forall k :: 0 <= k < |accounts| && accounts[k].id == accounts[i].id ==> k == i
    requires t != [] && verify(t) == Some(Sign(accounts[i]).payload)
    ensures AthleteAuth(accounts, Some("Bearer " + t), verify) == Ok(accounts[i])
  {
    ExtractBearer(t);
    var j := AccountIndex(accounts, accounts[i].id);
    assert j != -1;
  }

  /** Every account's profile, in collection order. */
  function Profiles(s: seq<Account>): (r: seq<Profile>)
    ensures |r| == |s|
    ensures forall k :: 0 <= k < |s| ==> r[k] == ProfileOf(s[k])
  {
    seq(|s|, k requires 0 <= k < |s| => ProfileOf(s[k]))
  }

  /** GET /api/athlete/profile: the caller's profile, without password. */
  function GetProfile(accounts: seq<Account>, header: Option<string>, verify: string -> Option<Claims>)
    : (r: Result<Profile>)
    ensures r.Ok? <==> AthleteAuth(accounts, header, verify).Ok?
    ensures r.Ok? ==> r.value == ProfileOf(AthleteAuth(accounts, header, verify).value)
    ensures r.Err? ==> r.failure == AthleteAuth(accounts, header, verify).failure
  {
    match AthleteAuth(accounts, header, verify)
    case Err(f) => Err(f)
    case Ok(a) => Ok(ProfileOf(a))
  }

  /** GET /api/athlete/all: the profiles of the accounts whose role is
      athlete, in collection order. */
  function AllAthletes(accounts: seq<Account>): (r: seq<Profile>)
    ensures forall k :: 0 <= k < |r| ==> r[k].role == AthleteRole
    ensures forall a :: a in accounts && a.role == AthleteRole ==> ProfileOf(a) in r
    ensures IsSubsequence(r, Profiles(accounts))
    decreases |accounts|
  {
    if accounts == [] then []
    else
      var t := AllAthletes(accounts[1..]);
      var all := Profiles(accounts);
      assert all[1..] == Profiles(accounts[1..]);
      assert accounts == [accounts[0]] + accounts[1..];
      if accounts[0].role == AthleteRole then
        var r := [ProfileOf(accounts[0])] + t;
        assert r[1..] == t;
        r
      else
        t
  }

  /** GET /api/athlete/:id: the profile of that account, or 404. */
  function GetById(accounts: seq<Account>, id: Id): (r: Result<Profile>)
    ensures AccountIndex(accounts, id) == -1 <==> r == Err(NotFound("Athlete not found"))
    ensures r.Ok? ==> r.value.id == id && r.value == ProfileOf(accounts[AccountIndex(accounts, id)])
  {
    var i := AccountIndex(accounts, id);
    if i == -1 then Err(NotFound("Athlete not found")) else Ok(ProfileOf(accounts[i]))
  }

  /** The subset of the body of PUT /api/athlete/profile that names
      account fields; each given field replaces the stored one. */
  datatype ProfileUpdate = ProfileUpdate(
    email: Option<string>, password: Option<string>, role: Option<string>,
    name: Option<string>, image: Option<string>, country: Option<string>,
    basicInfo: Option<BasicInfo>, about: Option<string>,
    achievements: Option<Achievements>, sponsorship: Option<Sponsorship>,
    social: Option<Social>, contact: Option<Contact>)

  /** `runValidators`: the required strings may not be set to "", and a
      role must name a known role. */
  predicate UpdateValid(u: ProfileUpdate) {
    (u.email.Some? ==> u.email.value != []) && (u.password.Some? ==> u.password.value != [])
    && (u.name.Some? ==> u.name.value != []) && (u.country.Some? ==> u.country.value != [])
    && (u.role.Some? ==> ParseRole(u.role.value).Some?)
  }

  /** The stored account after `$set`, with the password as the route
      actually stores it: `findByIdAndUpdate` does not run the pre-save
      hook, so a new password is kept as plain text. */
  function ApplySetAsWritten(a: Account, u: ProfileUpdate): (r: Account)
    requires UpdateValid(u)
    ensures u.password.Some? ==> r.password == Plain(u.password.value)
    ensures u.password.None? ==> r.password == a.password
    ensures r.id == a.id
  {
    SetProfileFields(a, u).(password := if u.password.Some? then Plain(u.password.value) else a.password)
  }

  /** The stored account after `$set` as the hook intends: a new password
      is stored hashed. */
  function ApplySet(a: Account, u: ProfileUpdate): (r: Account)
    requires UpdateValid(u)
    ensures u.password.Some? ==> r.password == Hashed(u.password.value)
    ensures u.password.None? ==> r.password == a.password
    ensures r.id == a.id
    ensures ProfileOf(r) == ProfileOf(ApplySetAsWritten(a, u))
  {
    SetProfileFields(a, u).(password := if u.password.Some? then Hashed(u.password.value) else a.password)
  }

  /** Every field but the password: each given value replaces the stored
      one, each absent one is kept. */
  function SetProfileFields(a: Account, u: ProfileUpdate): (r: Account)
    requires UpdateValid(u)
    ensures r.id == a.id && r.password == a.password
    ensures r.email == u.email.GetOr(a.email) && r.name == u.name.GetOr(a.name)
    ensures r.image == u.image.GetOr(a.image) && r.country == u.country.GetOr(a.country)
    ensures r.role == (if u.role.Some? then ParseRole(u.role.value).value else a.role)
    ensures r.basicInfo == u.basicInfo.GetOr(a.basicInfo) && r.about == u.about.GetOr(a.about)
    ensures r.achievements == u.achievements.GetOr(a.achievements)
    ensures r.sponsorship == u.sponsorship.GetOr(a.sponsorship)
    ensures r.social == u.social.GetOr(a.social) && r.contact == u.contact.GetOr(a.contact)
  {
    a.(email := u.email.GetOr(a.email),
       role := if u.role.Some? then ParseRole(u.role.value).value else a.role,
       name := u.name.GetOr(a.name),
       image := u.image.GetOr(a.image),
       country := u.country.GetOr(a.country),
       basicInfo := u.basicInfo.GetOr(a.basicInfo),
       about := u.about.GetOr(a.about),
       achievements := u.achievements.GetOr(a.achievements),
       sponsorship := u.sponsorship.GetOr(a.sponsorship),
       social := u.social.GetOr(a.social),
       contact := u.contact.GetOr(a.contact))
  }

  /** As written, changing the password through the profile stores the new
      text unhashed, and from then on no password logs in: neither the new
      one nor the old one matches what is stored. */
  lemma PasswordUpdateAsWrittenLocksOut(a: Account, u: ProfileUpdate, previous: string)
    requires UpdateValid(u) && u.password.Some? && u.email.None?
    ensures ApplySetAsWritten(a, u).password == Plain(u.password.value)
    ensures Login([ApplySetAsWritten(a, u)], LoginRequest(Some(a.email), u.password)).Err?
    ensures Login([ApplySetAsWritten(a, u)], LoginRequest(Some(a.email), Some(previous))).Err?
  {
  }

  /** With the password hashed, the new password logs in afterwards. */
  lemma PasswordUpdateLogsIn(a: Account, u: ProfileUpdate)
    requires UpdateValid(u) && u.password.Some? && u.email.None? && a.email != []
    ensures Login([ApplySet(a, u)], LoginRequest(Some(a.email), u.password)) == Ok(Respond(ApplySet(a, u)))
  {
    var s := [ApplySet(a, u)];
    assert s[0].email == a.email;
    assert EmailIndex(s, a.email) == 0;
  }

  /** A profile update that sends no password leaves every stored password
      hashed, whichever stored account it rewrites. */
  lemma UpdateWithoutPasswordKeepsHashed(accounts: seq<Account>, i: nat, a: Account, u: ProfileUpdate)
    requires PasswordsHashed(accounts) && i < |accounts| && a in accounts
    requires UpdateValid(u) && u.password.None?
    ensures PasswordsHashed(accounts[i := ApplySetAsWritten(a, u)])
  {
    var k :| 0 <= k < |accounts| && accounts[k] == a;
    assert a.password.Hashed?;
  }

  /** A profile update that sends a password, as written, leaves a plain
      text in the collection. */
  lemma PasswordUpdateAsWrittenStoresPlain(accounts: seq<Account>, i: nat, a: Account, u: ProfileUpdate)
    requires i < |accounts| && UpdateValid(u) && u.password.Some?
    ensures !PasswordsHashed(accounts[i := ApplySetAsWritten(a, u)])
  {
    assert accounts[i := ApplySetAsWritten(a, u)][i].password == Plain(u.password.value);
  }

  /** The corrected update is the update as written followed by the
      pre-save hook. */
  lemma CorrectedUpdateRunsHook(a: Account, u: ProfileUpdate)
    requires UpdateValid(u) && a.password.Hashed?
    ensures ApplySet(a, u) == PreSave(ApplySetAsWritten(a, u))
  {
  }

  /** PUT /api/athlete/profile: after the token check, an update the
      validators refuse, or one that moves the email onto another account's
      (the unique index), gets 500 and changes nothing; otherwise the
      caller's account is replaced by the `$set` result as the route stores
      it (a new password as plain text, `ApplySetAsWritten`) and its
      profile, without password, is the answer. An update without a
      password keeps every stored password hashed. */
  method UpdateProfile(store: AthleteCollection, header: Option<string>,
                       verify: string -> Option<Claims>, u: ProfileUpdate)
    returns (r: Result<Profile>)
    requires store.Valid()
    modifies store
    ensures store.Valid() && store.nextId == old(store.nextId)
    ensures AthleteAuth(old(store.accounts), header, verify).Err? ==>
      r == Err(AthleteAuth(old(store.accounts), header, verify).failure)
      && store.accounts == old(store.accounts)
    ensures var me := AthleteAuth(old(store.accounts), header, verify);
      me.Ok? && (!UpdateValid(u) || EmailTaken(old(store.accounts), me.value, u)) ==>
        r == Err(ServerError("Server error")) && store.accounts == old(store.accounts)
    ensures var me := AthleteAuth(old(store.accounts), header, verify);
      me.Ok? && UpdateValid(u) && !EmailTaken(old(store.accounts), me.value, u) ==>
        var i := AccountIndex(old(store.accounts), me.value.id);
        store.accounts == old(store.accounts)[i := ApplySetAsWritten(me.value, u)]
        && r == Ok(ProfileOf(ApplySetAsWritten(me.value, u)))
    ensures u.password.None? && old(PasswordsHashed(store.accounts)) ==> PasswordsHashed(store.accounts)
  {
    var me := AthleteAuth(store.accounts, header, verify);
    if me.Err? {
      return Err(me.failure);
    }
    if !UpdateValid(u) || EmailTaken(store.accounts, me.value, u) {
      return Err(ServerError("Server error"));
    }
    var i := AccountIndex(store.accounts, me.value.id);
    var a := ApplySetAsWritten(me.value, u);
    EmailKept(store.accounts, store.nextId, i, a);
    if u.password.None? && PasswordsHashed(store.accounts) {
      UpdateWithoutPasswordKeepsHashed(store.accounts, i, me.value, u);
    }
    store.accounts := store.accounts[i := a];
    r := Ok(ProfileOf(a));
  }

  /** The update would give the caller an email another account holds. */
  predicate EmailTaken(accounts: seq<Account>, me: Account, u: ProfileUpdate) {
    u.email.Some? && exists k :: 0 <= k < |accounts| && accounts[k].id != me.id && accounts[k].email == u.email.value
  }

  /** Replacing account `i` by one with the same id and an email no other
      account holds keeps the collection valid. */
  lemma EmailKept(accounts: seq<Account>, nextId: Id, i: nat, a: Account)
    requires ValidAccounts(accounts, nextId) && i < |accounts|
    requires a.id == accounts[i].id
    requires forall k :: 0 <= k < |accounts| && k != i ==> accounts[k].email != a.email
    ensures ValidAccounts(accounts[i := a], nextId)
  {
  }

  /** PUT /api/athlete/profile/image: after the token check, an absent or
      empty image gets 400, and so does one that does not start with
      "data:image/"; both change nothing. Otherwise only the caller's
      `image` changes, and the answer is the stored image. */
  method UploadImage(store: AthleteCollection, header: Option<string>,
                     verify: string -> Option<Claims>, image: Option<string>)
    returns (r: Result<string>)
    requires store.Valid()
    modifies store
    ensures store.Valid() && store.nextId == old(store.nextId)
    ensures AthleteAuth(old(store.accounts), header, verify).Err? ==>
      r == Err(AthleteAuth(old(store.accounts), header, verify).failure)
      && store.accounts == old(store.accounts)
    ensures AthleteAuth(old(store.accounts), header, verify).Ok? && !Present(image) ==>
      r == Err(BadRequest("No image data provided", [])) && store.accounts == old(store.accounts)
    ensures AthleteAuth(old(store.accounts), header, verify).Ok? && Present(image)
            && !StartsWith(image.value, "data:image/") ==>
      r == Err(BadRequest("Invalid image format. Please provide a valid image file.", []))
      && store.accounts == old(store.accounts)
    ensures var me := AthleteAuth(old(store.accounts), header, verify);
      me.Ok? && Present(image) && StartsWith(image.value, "data:image/") ==>
        var i := AccountIndex(old(store.accounts), me.value.id);
        store.accounts == old(store.accounts)[i := old(store.accounts)[i].(image := image.value)]
        && r == Ok(image.value)
    ensures old(PasswordsHashed(store.accounts)) ==> PasswordsHashed(store.accounts)
  {
    var me := AthleteAuth(store.accounts, header, verify);
    if me.Err? {
      return Err(me.failure);
    }
    if !Present(image) {
      return Err(BadRequest("No image data provided", []));
    }
    if !StartsWith(image.value, "data:image/") {
      return Err(BadRequest("Invalid image format. Please provide a valid image file.", []));
    }
    var i := AccountIndex(store.accounts, me.value.id);
    var a := store.accounts[i].(image := image.value);
    ReplaceKeepsValid(store.accounts, store.nextId, i, a);
    store.accounts := store.accounts[i := a];
    r := Ok(a.image);
  }
}
