/** Which weeks of a training plan are expanded
    (frontend/components/saathi/TrainingPlanDisplay.tsx). The state is the
    list `expandedWeeks` of week numbers; it starts empty. */
module PlanDisplay {
  import opened Lists

  /** `toggleWeek`: a week that is expanded is removed (every occurrence,
      by `filter`); one that is not is appended. */
  function ToggleWeek(expanded: seq<int>, week: int): (r: seq<int>)
    ensures week in expanded ==> week !in r && IsSubsequence(r, expanded)
    ensures week in expanded ==> multiset(r) == multiset(expanded)[week := 0]
    ensures week !in expanded ==> r == expanded + [week]
    ensures forall w :: w != week ==> (w in r <==> w in expanded)
    ensures NoDup(expanded) ==> NoDup(r)
  {
    assert NoDup(expanded) ==> NoDup(ToggleEvery(expanded, week)) by {
      if NoDup(expanded) {
        TogglesKeepNoDup(expanded, week);
      }
    }
    ToggleEvery(expanded, week)
  }

  /** A week's days are shown exactly when its number is expanded. */
  predicate Shown(expanded: seq<int>, weekNumber: int) {
    weekNumber in expanded
  }

  /** Toggling shows a hidden week and hides a shown one, and leaves every
      other week as it was. */
  lemma ToggleFlipsShown(expanded: seq<int>, week: int, other: int)
    ensures Shown(ToggleWeek(expanded, week), week) <==> !Shown(expanded, week)
    ensures other != week ==> (Shown(ToggleWeek(expanded, week), other) <==> Shown(expanded, other))
  {
  }

  /** Toggling a collapsed week twice gives back exactly the same list;
      toggling any week twice gives back the same set of shown weeks. */
  lemma ToggleTwice(expanded: seq<int>, week: int)
    ensures week !in expanded ==> ToggleWeek(ToggleWeek(expanded, week), week) == expanded
    ensures forall w :: Shown(ToggleWeek(ToggleWeek(expanded, week), week), w) <==> Shown(expanded, w)
  {
    if week !in expanded {
      ToggleEveryTwiceRestores(expanded, week);
    }
  }

  /** The list after the clicks `clicks`, in order, from the empty start. */
  function AfterClicks(clicks: seq<int>): seq<int>
    decreases |clicks|
  {
    if clicks == [] then [] else ToggleWeek(AfterClicks(clicks[..|clicks| - 1]), clicks[|clicks| - 1])
  }

  /** The last click adds one to its week's count and nothing else. */
  lemma CountAfterClick(clicks: seq<int>, week: int)
    requires clicks != []
    ensures multiset(clicks)[week] ==
      multiset(clicks[..|clicks| - 1])[week] + (if clicks[|clicks| - 1] == week then 1 else 0)
  {
    var prefix, last := clicks[..|clicks| - 1], clicks[|clicks| - 1];
    assert clicks == prefix + [last];
    assert multiset(clicks) == multiset(prefix) + multiset{last};
  }

  /** From the empty start the list never holds a week twice, and a week is
      shown exactly when it has been clicked an odd number of times. */
  lemma {:induction false} ClicksParity(clicks: seq<int>, week: int)
    ensures NoDup(AfterClicks(clicks))
    ensures Shown(AfterClicks(clicks), week) <==> multiset(clicks)[week] % 2 == 1
    decreases |clicks|
  {
    if clicks != [] {
      var prefix := clicks[..|clicks| - 1];
      var last := clicks[|clicks| - 1];
      ClicksParity(prefix, week);
      var before := AfterClicks(prefix);
      assert AfterClicks(clicks) == ToggleWeek(before, last);
      ToggleFlipsShown(before, last, week);
      CountAfterClick(clicks, week);
    }
  }
}
