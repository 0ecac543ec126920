/** The `Athlete` document of `limitless-backend` (models/Athlete.js): the
    account fields and their defaults, the role enum, the password hook that
    runs on `save`, `comparePassword`, and the collection itself with its
    unique email index. */
module AccountModel {
  import opened Common
  import opened Lists

  /** The `role` enum. */
  datatype Role = AthleteRole | CoachRole {
    function Name(): string {
      match this
      case AthleteRole => "athlete"
      case CoachRole => "coach"
    }
  }

  /** The enum validator (and the route's `['athlete', 'coach'].includes`). */
  function ParseRole(s: string): (r: Option<Role>)
    ensures r.Some? ==> r.value.Name() == s
    ensures r.None? <==> s != "athlete" && s != "coach"
  {
    if s == "athlete" then Some(AthleteRole)
    else if s == "coach" then Some(CoachRole)
    else None
  }

  /** Every role survives being stored and read back. */
  lemma RoleRoundTrip(role: Role)
    ensures ParseRole(role.Name()) == Some(role)
  {
  }

  /** A stored password: the text as assigned (`Plain`, not yet through the
      hook) or the bcrypt hash of a text (`Hashed`). The hash is ideal: two
      hashes are equal only when their texts are. */
  datatype Credential = Plain(text: string) | Hashed(of: string)

  /** `bcrypt.compare(candidate, stored)`: true exactly when `stored` is the
      hash of `candidate`; a text that is not a hash matches nothing. */
  predicate Matches(candidate: string, stored: Credential) {
    stored == Hashed(candidate)
  }

  datatype BasicInfo = BasicInfo(
    fullName: string, age: int, gender: string, nationality: string,
    state: string, sport: string, category: string, currentRanking: string)

  datatype Achievements = Achievements(medals: seq<string>, records: seq<string>, awards: seq<string>)

  datatype Sponsorship = Sponsorship(needs: seq<string>, impact: string)

  datatype Social = Social(instagram: string, twitter: string, facebook: string)

  datatype Contact = Contact(email: string, phone: string)

  const DefaultImage: string := "/ath.jpg"
  const DefaultBasicInfo: BasicInfo := BasicInfo("", 0, "", "", "", "", "", "")
  const DefaultAchievements: Achievements := Achievements([], [], [])
  const DefaultSponsorship: Sponsorship := Sponsorship([], "")
  const DefaultSocial: Social := Social("", "", "")
  const DefaultContact: Contact := Contact("", "")

  /** A stored account. */
  datatype Account = Account(
    id: Id,
    email: string,
    password: Credential,
    role: Role,
    name: string,
    image: string,
    country: string,
    basicInfo: BasicInfo,
    about: string,
    achievements: Achievements,
    sponsorship: Sponsorship,
    social: Social,
    contact: Contact)

  /** `new Athlete({ email, password, name, country, role })`: the password
      is still the plain text, and every profile field takes its default. */
  function NewAccount(id: Id, email: string, password: string, name: string,
                      country: string, role: Role): (a: Account)
    ensures a.id == id && a.email == email && a.name == name && a.country == country && a.role == role
    ensures a.password == Plain(password)
    ensures a.image == "/ath.jpg" && a.about == ""
    ensures a.basicInfo == BasicInfo("", 0, "", "", "", "", "", "")
    ensures a.achievements.medals == [] && a.achievements.records == [] && a.achievements.awards == []
    ensures a.sponsorship.needs == [] && a.sponsorship.impact == ""
    ensures a.social == Social("", "", "") && a.contact == Contact("", "")
  {
    Account(id, email, Plain(password), role, name, DefaultImage, country,
            DefaultBasicInfo, "", DefaultAchievements, DefaultSponsorship,
            DefaultSocial, DefaultContact)
  }

  /** The pre-save hook. A `Plain` password is one assigned since the last
      save (`isModified('password')`), and it is replaced by its hash; a
      password already hashed is left untouched, as is every other field. */
  function PreSave(a: Account): (r: Account)
    ensures r.password.Hashed?
    ensures a.password.Hashed? ==> r == a
    ensures a.password.Plain? ==> r == a.(password := Hashed(a.password.text))
  {
    match a.password
    case Plain(t) => a.(password := Hashed(t))
    case Hashed(_) => a
  }

  /** Saving twice hashes once. */
  lemma PreSaveIdempotent(a: Account)
    ensures PreSave(PreSave(a)) == PreSave(a)
  {
  }

  /** After the hook, `comparePassword(c)` holds exactly for the text that
      was assigned; before it nothing matches. */
  lemma ComparePasswordAfterSave(a: Account, candidate: string)
    requires a.password.Plain?
    ensures Matches(candidate, PreSave(a).password) <==> candidate == a.password.text
    ensures !Matches(candidate, a.password)
  {
  }

  /** The account as `.select('-password')` returns it. */
  datatype Profile = Profile(
    id: Id, email: string, role: Role, name: string, image: string, country: string,
    basicInfo: BasicInfo, about: string, achievements: Achievements,
    sponsorship: Sponsorship, social: Social, contact: Contact)

  function ProfileOf(a: Account): Profile {
    Profile(a.id, a.email, a.role, a.name, a.image, a.country, a.basicInfo, a.about,
            a.achievements, a.sponsorship, a.social, a.contact)
  }

  /** A profile reveals nothing about the password: accounts that differ
      only in the password have the same profile, and the profile keeps
      every other field. */
  lemma ProfileHidesPassword(a: Account, c: Credential)
    ensures ProfileOf(a.(password := c)) == ProfileOf(a)
    ensures var p := ProfileOf(a);
      p.id == a.id && p.email == a.email && p.role == a.role && p.name == a.name
      && p.image == a.image && p.country == a.country && p.basicInfo == a.basicInfo
      && p.about == a.about && p.achievements == a.achievements
      && p.sponsorship == a.sponsorship && p.social == a.social && p.contact == a.contact
  {
  }

  /** `Athlete.findOne({ email })`: the index of the account with that
      email, or -1. */
  function EmailIndex(accounts: seq<Account>, email: string): (r: int)
    ensures r == -1 <==> forall k :: 0 <= k < |accounts| ==> accounts[k].email != email
    ensures r != -1 ==> 0 <= r < |accounts| && accounts[r].email == email
  {
    FindIndex(accounts, (a: Account) => a.email == email)
  }

  /** `Athlete.findById(id)`: the index of the account with that id, or -1. */
  function AccountIndex(accounts: seq<Account>, id: Id): (r: int)
    ensures r == -1 <==> forall k :: 0 <= k < |accounts| ==> accounts[k].id != id
    ensures r != -1 ==> 0 <= r < |accounts| && accounts[r].id == id
  {
    FindIndex(accounts, (a: Account) => a.id == id)
  }

  /** The collection invariant: ids are below `nextId` and distinct, and
      emails are distinct (the unique index). */
  ghost predicate ValidAccounts(accounts: seq<Account>, nextId: Id) {
    (forall i :: 0 <= i < |accounts| ==> accounts[i].id < nextId)
    && (forall i, j :: 0 <= i < j < |accounts| ==>
          accounts[i].id != accounts[j].id && accounts[i].email != accounts[j].email)
  }

  /** No stored password is plain text. `save` keeps this (every document
      goes through the pre-save hook); the profile update route does not
      (see `AthleteRoutes.ApplySetAsWritten`). */
  predicate PasswordsHashed(accounts: seq<Account>) {
    forall i :: 0 <= i < |accounts| ==> accounts[i].password.Hashed?
  }

  /** A document that went through the pre-save hook keeps every stored
      password hashed. */
  lemma SavedKeepsHashed(accounts: seq<Account>, a: Account)
    requires PasswordsHashed(accounts)
    ensures PasswordsHashed(accounts + [PreSave(a)])
  {
    var s := accounts + [PreSave(a)];
    forall i | 0 <= i < |s| ensures s[i].password.Hashed? {
      if i < |accounts| { assert s[i] == accounts[i]; }
    }
  }

  /** Replacing an account by one with the same id and email keeps the
      invariant. */
  lemma ReplaceKeepsValid(accounts: seq<Account>, nextId: Id, i: nat, a: Account)
    requires ValidAccounts(accounts, nextId) && i < |accounts|
    requires a.id == accounts[i].id && a.email == accounts[i].email
    ensures ValidAccounts(accounts[i := a], nextId)
  {
  }

  /** The `Athlete` collection. */
  class AthleteCollection {
    var accounts: seq<Account>
    var nextId: Id

    ghost predicate Valid()
      reads this
    {
      ValidAccounts(accounts, nextId)
    }

    constructor ()
      ensures Valid() && accounts == [] && nextId == 0
    {
      accounts := [];
      nextId := 0;
    }

    /** `save` of a new document: it receives the next id, the pre-save
        hook hashes its password, and it is appended, unless the unique
        email index already holds its email, in which case nothing is
        stored. */
    method Insert(a: Account) returns (r: Option<Account>)
      requires Valid()
      modifies this
      ensures Valid()
      ensures EmailIndex(old(accounts), a.email) != -1 ==>
        r == None && accounts == old(accounts) && nextId == old(nextId)
      ensures EmailIndex(old(accounts), a.email) == -1 ==>
        r == Some(PreSave(a.(id := old(nextId))))
        && accounts == old(accounts) + [r.value] && nextId == old(nextId) + 1
      ensures old(PasswordsHashed(accounts)) ==> PasswordsHashed(accounts)
    {
      if EmailIndex(accounts, a.email) != -1 {
        return None;
      }
      var saved := PreSave(a.(id := nextId));
      if PasswordsHashed(accounts) { SavedKeepsHashed(accounts, a.(id := nextId)); }
      accounts := accounts + [saved];
      nextId := nextId + 1;
      r := Some(saved);
    }
  }
}
