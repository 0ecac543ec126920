/** The coach search of the coaching page
    (frontend/components/sections/coach-grid.tsx): `handleFilterChange` keeps
    the coaches that pass every filter, in their original order. */
module CoachGrid {
  import opened Text
  import opened Lists

  /** The fields of a coach record (frontend/data/coaches.ts) that the
      filter reads or that identify the coach. */
  datatype Coach = Coach(
    id: int, name: string, title: string, organization: string, description: string,
    badge: string, location: string, specialties: seq<string>, hourlyRate: int,
    availability: seq<string>)

  /** The filter form's values; `priceRange` is `[minPrice, maxPrice]`. */
  datatype CoachFilter = CoachFilter(
    search: string, specialty: string, location: string, minPrice: int, maxPrice: int)

  /** `haystack.toLowerCase().includes(needle.toLowerCase())`. */
  predicate ContainsIgnoringCase(haystack: string, needle: string) {
    Contains(Lower(haystack), Lower(needle))
  }

  /** The predicate passed to `coaches.filter`, as its chain of early
      returns. */
  predicate KeepCoach(f: CoachFilter, c: Coach) {
    if f.search != [] && !ContainsIgnoringCase(c.name, f.search)
       && !ContainsIgnoringCase(c.description, f.search) && !ContainsIgnoringCase(c.title, f.search)
    then false
    else if f.specialty != [] && c.badge != f.specialty then false
    else if f.location != [] && !ContainsIgnoringCase(c.location, f.location) then false
    else if c.hourlyRate < f.minPrice || c.hourlyRate > f.maxPrice then false
    else true
  }

  /** The early returns amount to four independent conditions: a search in
      name, description or title (ignoring case), an exact badge, a
      location substring (ignoring case), and an inclusive price range. */
  lemma KeepCoachIff(f: CoachFilter, c: Coach)
    ensures KeepCoach(f, c) <==>
      (f.search == [] || ContainsIgnoringCase(c.name, f.search)
        || ContainsIgnoringCase(c.description, f.search) || ContainsIgnoringCase(c.title, f.search))
      && (f.specialty == [] || c.badge == f.specialty)
      && (f.location == [] || ContainsIgnoringCase(c.location, f.location))
      && f.minPrice <= c.hourlyRate <= f.maxPrice
  {
  }

  /** With no search, specialty or location, only the price decides. */
  lemma OnlyPriceWhenTextEmpty(f: CoachFilter, c: Coach)
    requires f.search == [] && f.specialty == [] && f.location == []
    ensures KeepCoach(f, c) <==> f.minPrice <= c.hourlyRate <= f.maxPrice
  {
  }

  /** The search ignores case: a query and its lower-case form keep the
      same coaches. */
  lemma SearchIgnoresCase(f: CoachFilter, c: Coach)
    ensures KeepCoach(f.(search := Lower(f.search), location := Lower(f.location)), c) == KeepCoach(f, c)
  {
    LowerIdempotent(f.search);
    LowerIdempotent(f.location);
    assert Lower(f.search) == [] <==> f.search == [];
    assert Lower(f.location) == [] <==> f.location == [];
  }

  /** The coaches shown for a filter. */
  function FilterCoaches(coaches: seq<Coach>, f: CoachFilter): (r: seq<Coach>)
    ensures IsSubsequence(r, coaches)
    ensures forall c :: c in r <==> c in coaches && KeepCoach(f, c)
  {
    var keep := (c: Coach) => KeepCoach(f, c);
    FilterIsSubsequence(coaches, keep);
    Filter(coaches, keep)
  }
}
