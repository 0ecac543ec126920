/** The athlete directory page (frontend/app/athletes/page.tsx): the
    search/sport/country filter over the static list, the featured tab and
    the "new" tab. */
module AthletesPage {
  import opened Text
  import opened Lists

  /** The fields of a directory entry the page reads. */
  datatype Listing = Listing(id: int, name: string, story: string, sport: string, country: string, featured: bool)

  const AllSports: string := "All Sports"
  const AllCountries: string := "All Countries"

  /** The filter's current values. */
  datatype Query = Query(search: string, sport: string, country: string)

  /** The search matches name or story ignoring case. */
  predicate MatchesSearch(q: Query, a: Listing) {
    Contains(Lower(a.name), Lower(q.search)) || Contains(Lower(a.story), Lower(q.search))
  }

  /** The predicate of `athletes.filter`. */
  predicate MatchesQuery(q: Query, a: Listing) {
    MatchesSearch(q, a)
    && (q.sport == AllSports || a.sport == q.sport)
    && (q.country == AllCountries || a.country == q.country)
  }

  /** The page's initial state (empty search, "All Sports", "All
      Countries") lists everyone. */
  lemma InitialQueryMatchesAll(a: Listing)
    ensures MatchesQuery(Query("", AllSports, AllCountries), a)
  {
    ContainsEmpty(Lower(a.name));
  }

  /** A specific sport or country is matched exactly. */
  lemma SpecificSelectionsAreExact(q: Query, a: Listing)
    requires q.sport != AllSports && q.country != AllCountries
    ensures MatchesQuery(q, a) <==> MatchesSearch(q, a) && a.sport == q.sport && a.country == q.country
  {
  }

  /** The listings shown on the "all" tab. */
  function FilterListings(athletes: seq<Listing>, q: Query): (r: seq<Listing>)
    ensures IsSubsequence(r, athletes)
    ensures forall a :: a in r <==> a in athletes && MatchesQuery(q, a)
  {
    var keep := (a: Listing) => MatchesQuery(q, a);
    FilterIsSubsequence(athletes, keep);
    Filter(athletes, keep)
  }

  /** The "featured" tab: exactly the featured listings, in order. */
  function Featured(athletes: seq<Listing>): (r: seq<Listing>)
    ensures IsSubsequence(r, athletes)
    ensures forall a :: a in r <==> a in athletes && a.featured
  {
    var keep := (a: Listing) => a.featured;
    FilterIsSubsequence(athletes, keep);
    Filter(athletes, keep)
  }

  /** The "new" tab: `athletes.slice(0, 3)`, the first `min(3, n)`. */
  function Newest(athletes: seq<Listing>): (r: seq<Listing>)
    ensures |r| == if |athletes| < 3 then |athletes| else 3
    ensures forall k :: 0 <= k < |r| ==> r[k] == athletes[k]
  {
    Take(athletes, 3)
  }
}
