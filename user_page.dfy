/** The signed-in athlete's profile page (frontend/app/user/page.tsx): the
    default profile, the merge that completes fetched data with it, the
    page's state transitions on fetch, edit and save, and the text editing
    of list fields. */
module UserPage {
  import opened Common
  import opened Text
  import opened AccountModel

  /** The shape of the page's `athlete` and `formData` state. */
  datatype ProfileData = ProfileData(
    name: string, image: string, country: string, basicInfo: BasicInfo, about: string,
    achievements: Achievements, sponsorship: Sponsorship, social: Social, contact: Contact)

  /** `defaultAthleteData`: empty texts, age 0, empty lists, and the
      default image "/ath.jpg". */
  const DefaultAthleteData: ProfileData := ProfileData(
    "", DefaultImage, "", DefaultBasicInfo, "",
    DefaultAchievements, DefaultSponsorship, DefaultSocial, DefaultContact)

  /** Groups of the fetched JSON, where any key may be missing. */
  datatype PartialBasicInfo = PartialBasicInfo(
    fullName: Option<string>, age: Option<int>, gender: Option<string>, nationality: Option<string>,
    state: Option<string>, sport: Option<string>, category: Option<string>, currentRanking: Option<string>)
  datatype PartialAchievements = PartialAchievements(
    medals: Option<seq<string>>, records: Option<seq<string>>, awards: Option<seq<string>>)
  datatype PartialSponsorship = PartialSponsorship(needs: Option<seq<string>>, impact: Option<string>)
  datatype PartialSocial = PartialSocial(instagram: Option<string>, twitter: Option<string>, facebook: Option<string>)
  datatype PartialContact = PartialContact(email: Option<string>, phone: Option<string>)

  /** The fetched profile JSON: every key, and every group, may be missing. */
  datatype FetchedData = FetchedData(
    name: Option<string>, image: Option<string>, country: Option<string>,
    basicInfo: Option<PartialBasicInfo>, about: Option<string>,
    achievements: Option<PartialAchievements>, sponsorship: Option<PartialSponsorship>,
    social: Option<PartialSocial>, contact: Option<PartialContact>)

  /** `{ ...defaults.basicInfo, ...(data.basicInfo || {}) }`. */
  function MergeBasicInfo(d: BasicInfo, p: Option<PartialBasicInfo>): (r: BasicInfo)
    ensures p.None? ==> r == d
    ensures p.Some? ==>
      && r.fullName == p.value.fullName.GetOr(d.fullName)
      && r.age == p.value.age.GetOr(d.age)
      && r.gender == p.value.gender.GetOr(d.gender)
      && r.nationality == p.value.nationality.GetOr(d.nationality)
      && r.state == p.value.state.GetOr(d.state)
      && r.sport == p.value.sport.GetOr(d.sport)
      && r.category == p.value.category.GetOr(d.category)
      && r.currentRanking == p.value.currentRanking.GetOr(d.currentRanking)
  {
    match p
    case None => d
    case Some(q) =>
      BasicInfo(q.fullName.GetOr(d.fullName), q.age.GetOr(d.age), q.gender.GetOr(d.gender),
                q.nationality.GetOr(d.nationality), q.state.GetOr(d.state), q.sport.GetOr(d.sport),
                q.category.GetOr(d.category), q.currentRanking.GetOr(d.currentRanking))
  }

  /** `{ ...defaults.achievements, ...(data.achievements || {}) }`. */
  function MergeAchievements(d: Achievements, p: Option<PartialAchievements>): (r: Achievements)
    ensures p.None? ==> r == d
    ensures p.Some? ==>
      && r.medals == p.value.medals.GetOr(d.medals)
      && r.records == p.value.records.GetOr(d.records)
      && r.awards == p.value.awards.GetOr(d.awards)
  {
    match p
    case None => d
    case Some(q) => Achievements(q.medals.GetOr(d.medals), q.records.GetOr(d.records), q.awards.GetOr(d.awards))
  }

  /** `{ ...defaults.sponsorship, ...(data.sponsorship || {}) }`. */
  function MergeSponsorship(d: Sponsorship, p: Option<PartialSponsorship>): (r: Sponsorship)
    ensures p.None? ==> r == d
    ensures p.Some? ==> r.needs == p.value.needs.GetOr(d.needs) && r.impact == p.value.impact.GetOr(d.impact)
  {
    match p
    case None => d
    case Some(q) => Sponsorship(q.needs.GetOr(d.needs), q.impact.GetOr(d.impact))
  }

  /** `{ ...defaults.social, ...(data.social || {}) }`. */
  function MergeSocial(d: Social, p: Option<PartialSocial>): (r: Social)
    ensures p.None? ==> r == d
    ensures p.Some? ==>
      && r.instagram == p.value.instagram.GetOr(d.instagram)
      && r.twitter == p.value.twitter.GetOr(d.twitter)
      && r.facebook == p.value.facebook.GetOr(d.facebook)
  {
    match p
    case None => d
    case Some(q) => Social(q.instagram.GetOr(d.instagram), q.twitter.GetOr(d.twitter), q.facebook.GetOr(d.facebook))
  }

  /** `{ ...defaults.contact, ...(data.contact || {}) }`. */
  function MergeContact(d: Contact, p: Option<PartialContact>): (r: Contact)
    ensures p.None? ==> r == d
    ensures p.Some? ==> r.email == p.value.email.GetOr(d.email) && r.phone == p.value.phone.GetOr(d.phone)
  {
    match p
    case None => d
    case Some(q) => Contact(q.email.GetOr(d.email), q.phone.GetOr(d.phone))
  }

  /** `completeData`: the fetched keys override the defaults, key by key
      inside each group, and every key the data lacks keeps its default. */
  function Complete(data: FetchedData): (r: ProfileData)
    ensures r.name == data.name.GetOr(DefaultAthleteData.name)
    ensures r.image == data.image.GetOr(DefaultImage)
    ensures r.country == data.country.GetOr(DefaultAthleteData.country)
    ensures r.about == data.about.GetOr(DefaultAthleteData.about)
    ensures r.basicInfo == MergeBasicInfo(DefaultBasicInfo, data.basicInfo)
    ensures r.achievements == MergeAchievements(DefaultAchievements, data.achievements)
    ensures r.sponsorship == MergeSponsorship(DefaultSponsorship, data.sponsorship)
    ensures r.social == MergeSocial(DefaultSocial, data.social)
    ensures r.contact == MergeContact(DefaultContact, data.contact)
  {
    ProfileData(
      data.name.GetOr(DefaultAthleteData.name), data.image.GetOr(DefaultImage),
      data.country.GetOr(DefaultAthleteData.country),
      MergeBasicInfo(DefaultBasicInfo, data.basicInfo), data.about.GetOr(DefaultAthleteData.about),
      MergeAchievements(DefaultAchievements, data.achievements),
      MergeSponsorship(DefaultSponsorship, data.sponsorship),
      MergeSocial(DefaultSocial, data.social), MergeContact(DefaultContact, data.contact))
  }

  /** Data with no keys at all completes to exactly the default profile. */
  lemma EmptyDataIsDefault()
    ensures Complete(FetchedData(None, None, None, None, None, None, None, None, None)) == DefaultAthleteData
  {
  }

  /** A group missing from the data, or present with none of its keys,
      yields exactly the default group. */
  lemma MissingGroupIsDefault(data: FetchedData)
    ensures data.basicInfo.None? || data.basicInfo == Some(PartialBasicInfo(None, None, None, None, None, None, None, None))
      ==> Complete(data).basicInfo == DefaultBasicInfo
    ensures data.achievements.None? || data.achievements == Some(PartialAchievements(None, None, None))
      ==> Complete(data).achievements == DefaultAchievements
    ensures data.sponsorship.None? || data.sponsorship == Some(PartialSponsorship(None, None))
      ==> Complete(data).sponsorship == DefaultSponsorship
    ensures data.social.None? || data.social == Some(PartialSocial(None, None, None))
      ==> Complete(data).social == DefaultSocial
    ensures data.contact.None? || data.contact == Some(PartialContact(None, None))
      ==> Complete(data).contact == DefaultContact
  {
  }

  /** A profile sent back in full: every key given. */
  function Full(p: ProfileData): (d: FetchedData)
    ensures d.name.Some? && d.image.Some? && d.country.Some? && d.about.Some?
    ensures d.basicInfo.Some? && d.achievements.Some? && d.sponsorship.Some? && d.social.Some? && d.contact.Some?
  {
    var b := p.basicInfo;
    FetchedData(
      Some(p.name), Some(p.image), Some(p.country),
      Some(PartialBasicInfo(Some(b.fullName), Some(b.age), Some(b.gender), Some(b.nationality),
                            Some(b.state), Some(b.sport), Some(b.category), Some(b.currentRanking))),
      Some(p.about),
      Some(PartialAchievements(Some(p.achievements.medals), Some(p.achievements.records), Some(p.achievements.awards))),
      Some(PartialSponsorship(Some(p.sponsorship.needs), Some(p.sponsorship.impact))),
      Some(PartialSocial(Some(p.social.instagram), Some(p.social.twitter), Some(p.social.facebook))),
      Some(PartialContact(Some(p.contact.email), Some(p.contact.phone))))
  }

  /** Completing data that already has every key changes nothing: the
      defaults only fill gaps, and completing twice is completing once. */
  lemma CompleteDataIsFixedPoint(p: ProfileData, data: FetchedData)
    ensures Complete(Full(p)) == p
    ensures Complete(Full(Complete(data))) == Complete(data)
  {
  }

  /** How the profile request came back: the parsed body, or a failure
      (a non-OK status or a network error). */
  datatype Response<T> = Failed | Received(body: T)

  /** The list fields edited as text. */
  datatype AchievementCategory = Medals | Records | Awards

  /** `xs.join(", ")`: how a list field is shown in its text area. */
  function ShownList(xs: seq<string>): string {
    Join(xs, ListSeparator)
  }

  /** `value.split(", ")`: what a text area's content becomes. */
  function EditedList(text: string): (r: seq<string>)
    ensures |r| >= 1
  {
    Split(text, ListSeparator)
  }

  /** An edit that leaves the shown text as it is keeps the list, provided
      the list is non-empty and no item contains ", "; an empty list comes
      back as one empty item. */
  lemma ListEditRoundTrip(xs: seq<string>)
    requires forall k :: 0 <= k < |xs| ==> !Contains(xs[k], ListSeparator)
    ensures |xs| >= 1 ==> EditedList(ShownList(xs)) == xs
    ensures xs == [] ==> EditedList(ShownList(xs)) == [""]
  {
    if |xs| >= 1 {
      SplitJoinList(xs);
    } else {
      SplitJoinEmptyList();
    }
  }

  /** The page's React state. */
  class ProfilePage {
    var athlete: ProfileData
    var editing: bool
    var formData: ProfileData
    var loading: bool
    /** Where `window.location.href` was sent, if anywhere. */
    var location: Option<string>

    /** The initial state: default data, not editing, loading. */
    constructor ()
      ensures athlete == DefaultAthleteData && formData == DefaultAthleteData
      ensures !editing && loading && location.None?
    {
      athlete := DefaultAthleteData;
      editing := false;
      formData := DefaultAthleteData;
      loading := true;
      location := None;
    }

    /** `fetchProfile`. Without a stored token the page goes to /auth and
        fetches nothing (and stays loading); a failed request only ends
        loading; a received profile is completed with the defaults and
        becomes both `athlete` and `formData`. */
    method FetchProfile(token: Option<string>, response: Response<FetchedData>)
      modifies this
      ensures !Present(token) ==>
        location == Some("/auth") && athlete == old(athlete) && formData == old(formData) && loading == old(loading)
      ensures Present(token) && response.Failed? ==>
        !loading && athlete == old(athlete) && formData == old(formData) && location == old(location)
      ensures Present(token) && response.Received? ==>
        && athlete == Complete(response.body) && formData == Complete(response.body)
        && !loading && location == old(location)
      ensures editing == old(editing)
    {
      if !Present(token) {
        location := Some("/auth");
        return;
      }
      match response
      case Failed =>
        loading := false;
      case Received(data) =>
        var complete := Complete(data);
        athlete := complete;
        formData := complete;
        loading := false;
    }

    /** `handleEdit`: start editing a copy of the shown profile. */
    method HandleEdit()
      modifies this
      ensures editing && formData == athlete && athlete == old(athlete)
      ensures loading == old(loading) && location == old(location)
    {
      editing := true;
      formData := athlete;
    }

    /** `handleSave`: on success the response becomes the shown profile and
        editing ends; on failure nothing changes. The form keeps its
        content either way. */
    method HandleSave(response: Response<ProfileData>)
      modifies this
      ensures response.Received? ==> athlete == response.body && !editing
      ensures response.Failed? ==> athlete == old(athlete) && editing == old(editing)
      ensures formData == old(formData) && loading == old(loading) && location == old(location)
    {
      if response.Received? {
        athlete := response.body;
        editing := false;
      }
    }

    /** The text area of an achievements category: the category's list
        becomes the entered text split at ", "; nothing else changes. */
    method EditAchievements(category: AchievementCategory, text: string)
      modifies this
      ensures formData == old(formData).(achievements :=
        match category
        case Medals => old(formData).achievements.(medals := EditedList(text))
        case Records => old(formData).achievements.(records := EditedList(text))
        case Awards => old(formData).achievements.(awards := EditedList(text)))
      ensures athlete == old(athlete) && editing == old(editing)
      ensures loading == old(loading) && location == old(location)
    {
      var a := formData.achievements;
      var items := EditedList(text);
      match category {
        case Medals => a := a.(medals := items);
        case Records => a := a.(records := items);
        case Awards => a := a.(awards := items);
      }
      formData := formData.(achievements := a);
    }

    /** The sponsorship-needs text area. */
    method EditNeeds(text: string)
      modifies this
      ensures formData == old(formData).(sponsorship := old(formData).sponsorship.(needs := EditedList(text)))
      ensures athlete == old(athlete) && editing == old(editing)
      ensures loading == old(loading) && location == old(location)
    {
      formData := formData.(sponsorship := formData.sponsorship.(needs := EditedList(text)));
    }
  }
}
