/** The athlete finder on the landing page
    (frontend/components/sections/match-hero.tsx): the transform of the
    fetched `/api/athlete/all` records into cards, and the selector filter. */
module MatchHero {
  import opened Common
  import opened Text
  import opened Lists
  import opened AccountModel

  /** The `basicInfo` fields of a fetched record that the page reads; a
      field may be absent from the JSON. */
  datatype FetchedInfo = FetchedInfo(
    gender: Option<string>, state: Option<string>, sport: Option<string>, currentRanking: Option<string>)

  /** A fetched record. */
  datatype FetchedAthlete = FetchedAthlete(id: Id, name: string, image: Option<string>, basicInfo: FetchedInfo)

  /** The card the grid shows. */
  datatype AthleteCard = AthleteCard(
    id: Id, name: string, gender: string, team: string, sport: string,
    location: string, image: string, status: string, basicInfo: FetchedInfo)

  /** `x || ''`. */
  function OrEmpty(x: Option<string>): (r: string)
    ensures x.Some? ==> r == x.value
    ensures x.None? ==> r == ""
  {
    x.GetOr("")
  }

  /** `x || fallback`: an absent or empty value gives the fallback. */
  function OrElse(x: Option<string>, fallback: string): (r: string)
    ensures Present(x) ==> r == x.value
    ensures !Present(x) ==> r == fallback
  {
    if Present(x) then x.value else fallback
  }

  /** The `data.map` transform: gender, sport, location and status come from
      basicInfo's gender, sport, state and currentRanking (or ""), the team
      is always "Independent", and the image falls back to "/ath.jpg". */
  function Transform(a: FetchedAthlete): (r: AthleteCard)
    ensures r.id == a.id && r.name == a.name && r.basicInfo == a.basicInfo
    ensures r.gender == OrEmpty(a.basicInfo.gender) && r.sport == OrEmpty(a.basicInfo.sport)
    ensures r.location == OrEmpty(a.basicInfo.state) && r.status == OrEmpty(a.basicInfo.currentRanking)
    ensures r.team == "Independent"
    ensures r.image == OrElse(a.image, "/ath.jpg") && r.image != ""
  {
    AthleteCard(a.id, a.name, OrEmpty(a.basicInfo.gender), "Independent", OrEmpty(a.basicInfo.sport),
                OrEmpty(a.basicInfo.state), OrElse(a.image, "/ath.jpg"), OrEmpty(a.basicInfo.currentRanking),
                a.basicInfo)
  }

  /** The JSON of a stored profile, as the page receives it. */
  function FromProfile(p: Profile): FetchedAthlete {
    FetchedAthlete(p.id, p.name, Some(p.image),
      FetchedInfo(Some(p.basicInfo.gender), Some(p.basicInfo.state), Some(p.basicInfo.sport),
                  Some(p.basicInfo.currentRanking)))
  }

  /** A card built from a stored profile shows that profile's values; the
      only fallback that can fire is the image, for an empty image. */
  lemma CardOfProfile(p: Profile)
    ensures var c := Transform(FromProfile(p));
      c.gender == p.basicInfo.gender && c.sport == p.basicInfo.sport
      && c.location == p.basicInfo.state && c.status == p.basicInfo.currentRanking
      && c.image == (if p.image == "" then "/ath.jpg" else p.image)
  {
  }

  /** The three selectors. */
  datatype Selection = Selection(sport: string, gender: string, location: string)

  /** The predicate of `athletes.filter`: an empty selector matches every
      card; sport and gender must be equal ignoring case; the location must
      occur in the card's location ignoring case. */
  predicate MatchesSelection(s: Selection, c: AthleteCard) {
    var sportMatch := if s.sport != [] then Lower(c.sport) == Lower(s.sport) else true;
    var genderMatch := if s.gender != [] then Lower(c.gender) == Lower(s.gender) else true;
    var locationMatch := if s.location != [] then Contains(Lower(c.location), Lower(s.location)) else true;
    sportMatch && genderMatch && locationMatch
  }

  /** With every selector empty, every card matches. */
  lemma EmptySelectionMatchesAll(c: AthleteCard)
    ensures MatchesSelection(Selection("", "", ""), c)
  {
  }

  /** The comparison ignores case: two sports that differ only in case
      select the same cards. */
  lemma SportIgnoresCase(s: Selection, c: AthleteCard)
    requires s.sport != []
    ensures MatchesSelection(s, c) == MatchesSelection(s.(sport := Lower(s.sport)), c)
  {
    LowerIdempotent(s.sport);
    assert Lower(s.sport) != [];
  }

  /** The cards shown for a selection. */
  function FilterCards(cards: seq<AthleteCard>, s: Selection): (r: seq<AthleteCard>)
    ensures IsSubsequence(r, cards)
    ensures forall c :: c in r <==> c in cards && MatchesSelection(s, c)
  {
    var keep := (c: AthleteCard) => MatchesSelection(s, c);
    FilterIsSubsequence(cards, keep);
    Filter(cards, keep)
  }
}
