/** The list page object of tests/pages/listPage.js: the checks it runs on the
    items it reads from the page. Clicking, waiting and navigating are left out;
    what the page shows is passed in. */
module ListPage {
  import opened Outcomes
  import opened Text
  import opened Matcher
  import opened Registry
  import opened TitleCheck
  import opened Days
  import opened Teams

  /** `verifyListComponents`, after its visibility checks: the list has items. */
  function VerifyListComponents(itemCount: nat): (r: Outcome)
    ensures r == Pass <==> itemCount > 0
    ensures r != Pass ==> r == Fail(NoListItems)
  {
    if itemCount == 0 then Fail(NoListItems) else Pass
  }

  /** The number of items shown on the first load when no count is given. */
  const DefaultExpectedCount: nat := 10

  /** `verifyInitialListItemCount`: the count must be exactly the expected one. */
  function VerifyInitialListItemCount(itemCount: nat, expectedCount: nat := DefaultExpectedCount): (r: Outcome)
    ensures r == Pass <==> itemCount == expectedCount
    ensures r != Pass ==> r == Fail(CountMismatch(expectedCount, itemCount))
  {
    if itemCount != expectedCount then Fail(CountMismatch(expectedCount, itemCount)) else Pass
  }

  lemma DefaultCountExamples()
    ensures VerifyInitialListItemCount(10) == Pass
    ensures VerifyInitialListItemCount(11) == Fail(CountMismatch(10, 11))
  {
  }

  // ---------------------------------------------------------------------------
  // verifyTitlesAndTypes

  /** One list item as the page shows it: its `data-action-type` attribute (absent
      when the attribute is missing) and the inner texts of its title element. */
  datatype ListItem = ListItem(actionType: Option<string>, titleTexts: seq<string>)

  /** The check of one item, in the order the page object runs it. */
  function ItemVerdict(mapping: map<string, string>, item: ListItem): Outcome {
    match item.actionType
    case None => Fail(MissingActionType)
    case Some(actionType) =>
      if actionType == "GENERIC" then Fail(GenericAction)
      else VerifyTitleCorrespondsToType(mapping, actionType, Normalise(item.titleTexts))
  }

  /** `GENERIC`, spelled exactly so, is refused whatever the title; a missing
      attribute fails (the title check upper-cases it); any other category passes
      exactly when the registry selects it and the title, its inner texts joined by
      one space, trimmed and with whitespace runs collapsed, contains an instance
      of the category's template. */
  lemma ItemVerdictMeaning(mapping: map<string, string>, item: ListItem)
    ensures item.actionType == Some("GENERIC") ==> ItemVerdict(mapping, item) == Fail(GenericAction)
    ensures item.actionType.None? ==> ItemVerdict(mapping, item) == Fail(MissingActionType)
    ensures item.actionType.Some? && item.actionType.value != "GENERIC" ==>
              (ItemVerdict(mapping, item) == Pass <==>
               Selects(mapping, ToUpper(item.actionType.value))
               && ContainsInstance(Compile(mapping[ToUpper(item.actionType.value)]), Normalise(item.titleTexts)))
  {
  }

  /** `verifyTitlesAndTypes`: the items are checked in order and the first failing
      item's failure is the one reported. */
  method VerifyTitlesAndTypes(mapping: map<string, string>, items: seq<ListItem>) returns (r: Outcome)
    ensures r == Pass <==> forall k :: 0 <= k < |items| ==> ItemVerdict(mapping, items[k]) == Pass
    ensures r != Pass ==>
              exists k :: 0 <= k < |items|
                          && (forall j :: 0 <= j < k ==> ItemVerdict(mapping, items[j]) == Pass)
                          && r == ItemVerdict(mapping, items[k])
  {
    var i := 0;
    while i < |items|
      invariant 0 <= i <= |items|
      invariant forall j :: 0 <= j < i ==> ItemVerdict(mapping, items[j]) == Pass
    {
      var verdict := ItemVerdict(mapping, items[i]);
      if verdict != Pass {
        assert 0 <= i < |items| && verdict == ItemVerdict(mapping, items[i]);
        return verdict;
      }
      i := i + 1;
    }
    return Pass;
  }

  /** The guard compares the attribute exactly: any other spelling of GENERIC goes
      on to the title check. */
  lemma GenericGuardIsExact(mapping: map<string, string>, actionType: string, titleTexts: seq<string>)
    requires actionType != "GENERIC"
    ensures ItemVerdict(mapping, ListItem(Some(actionType), titleTexts))
            == VerifyTitleCorrespondsToType(mapping, actionType, Normalise(titleTexts))
  {
  }

  lemma GenericUpper()
    ensures ToUpper("generic") == "GENERIC"
  {
    ToUpperPointwise("generic", "GENERIC");
  }

  /** "generic" passes the guard, is upper-cased to GENERIC and is checked against
      the GENERIC template like any other category. With a non-empty template free
      of placeholders (as the suite's "Generic Action" is), the item passes exactly
      when its title contains that text in any letter case. */
  lemma LowerCaseGenericReachesTemplate(mapping: map<string, string>, titleTexts: seq<string>)
    requires "GENERIC" in mapping && '<' !in mapping["GENERIC"]
    ensures ItemVerdict(mapping, ListItem(Some("generic"), titleTexts)) == Pass
            <==> mapping["GENERIC"] != "" && ContainsFolded(Normalise(titleTexts), mapping["GENERIC"])
  {
    var title := Normalise(titleTexts);
    GenericGuardIsExact(mapping, "generic", titleTexts);
    GenericUpper();
    PlainTemplate(mapping["GENERIC"], title);
  }

  // ---------------------------------------------------------------------------
  // verifySortingByDate

  /** What `verifySortingByDate` does and returns: the sort option it picks, and
      the day count read from each item's details page, in list order. */
  datatype SortReport = SortReport(sortOption: string, days: seq<nat>)

  /** The counts read from the details pages, one per item, 0 where the text is not
      "N days ago". The text is used as `innerText` returns it, untrimmed. */
  function DaysArray(detailTexts: seq<string>): (days: seq<nat>)
    ensures |days| == |detailTexts|
    ensures forall k :: 0 <= k < |detailTexts| ==> days[k] == ParseDaysAgo(detailTexts[k])
  {
    if detailTexts == [] then []
    else [ParseDaysAgo(detailTexts[0])] + DaysArray(detailTexts[1..])
  }

  /** `verifySortingByDate` as written: "asc" picks "Oldest", anything else
      "Newest"; the counts are collected and returned, and their order is never
      compared with the chosen option. */
  function VerifySortingByDate(order: string, detailTexts: seq<string>): (r: SortReport)
    ensures r.sortOption == "Oldest" <==> order == "asc"
    ensures r.sortOption == "Oldest" || r.sortOption == "Newest"
    ensures r.days == DaysArray(detailTexts)
  {
    SortReport(if order == "asc" then "Oldest" else "Newest", DaysArray(detailTexts))
  }

  lemma TwoThenFive()
    ensures DaysArray(["2 days ago", "5 days ago"]) == [2, 5]
  {
    ParseTwo();
    ParseFive();
  }

  lemma FiveThenTwo()
    ensures DaysArray(["5 days ago", "2 days ago"]) == [5, 2]
  {
    ParseTwo();
    ParseFive();
  }

  /** With "Oldest" chosen, a list showing "2 days ago" before "5 days ago" is in
      the opposite order, yet the method returns normally with its counts. */
  lemma SortingByDateAcceptsWrongOrder()
    ensures VerifySortingByDate("asc", ["2 days ago", "5 days ago"])
            == SortReport("Oldest", [2, 5])
    ensures !SortedFor([2, 5], "asc")
  {
    TwoThenFive();
    assert !([2, 5][1] <= [2, 5][0]);
  }

  /** The counts `filter(Boolean)` keeps: the positive ones, in order. */
  function Positive(days: seq<nat>): (r: seq<nat>)
    ensures forall k :: 0 <= k < |r| ==> r[k] > 0
    ensures forall k :: 0 <= k < |days| && days[k] > 0 ==> days[k] in r
    ensures forall x :: x in r ==> x in days
  {
    if days == [] then []
    else
      var rest := Positive(days[1..]);
      assert forall k :: 1 <= k < |days| ==> days[k] == days[1..][k - 1];
      if days[0] > 0 then [days[0]] + rest else rest
  }

  /** One count is kept exactly when it is positive. */
  lemma PositiveOne(d: nat)
    ensures Positive([d]) == (if d > 0 then [d] else [])
  {
    assert [d][1..] == [];
  }

  /** The filter keeps order and multiplicity: filtering two lists one after the
      other is filtering their concatenation. */
  lemma {:induction false} PositiveAppend(a: seq<nat>, b: seq<nat>)
    ensures Positive(a + b) == Positive(a) + Positive(b)
    decreases |a|
  {
    if a == [] {
      assert a + b == b;
    } else {
      assert (a + b)[0] == a[0];
      assert (a + b)[1..] == a[1..] + b;
      PositiveAppend(a[1..], b);
    }
  }

  /** The details texts, read untrimmed and filtered, give the counts
      `verifyDaysSorting` keeps from the same texts trimmed. */
  lemma {:induction false} PositiveDaysArray(texts: seq<string>)
    ensures Positive(DaysArray(texts)) == KeptDays(texts)
    decreases |texts|
  {
    if texts != [] {
      var days := DaysArray(texts);
      assert days[1..] == DaysArray(texts[1..]);
      PositiveDaysArray(texts[1..]);
      ParseDaysTrim(texts[0]);
      ParseDaysAgoMeaning(texts[0]);
    }
  }

  /** `verifySortingByDate` with the order check its heading announces: the
      collected counts, filtered as `verifyDaysSorting` filters them, must run in
      the chosen order, compared neighbour by neighbour as dates. The verdict is
      the one `verifyDaysSorting` reaches on the same texts. */
  method VerifySortingByDateChecked(order: string, detailTexts: seq<string>)
    returns (report: SortReport, r: Outcome)
    ensures report == VerifySortingByDate(order, detailTexts)
    ensures r == Pass <==> SortedFor(Positive(report.days), order)
    ensures r == Pass <==> SortedFor(KeptDays(detailTexts), order)
    ensures r != Pass ==> r == Fail(NotSorted(order))
  {
    report := VerifySortingByDate(order, detailTexts);
    PositiveDaysArray(detailTexts);
    r := CheckDaysOrder(Positive(report.days), order);
  }

  lemma PositiveExamples()
    ensures Positive([2, 5]) == [2, 5] && Positive([5, 2]) == [5, 2]
  {
  }

  /** The corrected check refuses the list the written one lets through. */
  lemma CheckedRefusesWrongOrder()
    ensures !SortedFor(KeptDays(["2 days ago", "5 days ago"]), "asc")
  {
    TwoThenFive();
    PositiveExamples();
    PositiveDaysArray(["2 days ago", "5 days ago"]);
    assert !([2, 5][1] <= [2, 5][0]);
  }

  /** The corrected check accepts the same counts in "Oldest" order. */
  lemma CheckedAcceptsOldestFirst()
    ensures SortedFor(KeptDays(["5 days ago", "2 days ago"]), "asc")
  {
    FiveThenTwo();
    PositiveExamples();
    PositiveDaysArray(["5 days ago", "2 days ago"]);
  }

  // ---------------------------------------------------------------------------
  // verifyCombinedFilters

  /** `verifyCombinedFilters` as written: the team filter, then the type filter,
      then `verifySortingByDate`, whose counts are collected and never compared.
      The first filter that fails decides the outcome; the date order never does.
      Each argument list is what the page shows at that step. */
  method VerifyCombinedFilters(mapping: map<string, string>, expectedTeam: string, expectedType: string,
                               order: string, teamTexts: seq<string>, typeTexts: seq<string>,
                               detailTexts: seq<string>)
    returns (r: Outcome)
    ensures r == Pass <==>
              VerifyTeamFilter(teamTexts, expectedTeam) == Pass
              && forall k :: 0 <= k < |typeTexts| ==>
                   VerifyTitleCorrespondsToType(mapping, expectedType, Trim(typeTexts[k])) == Pass
    ensures VerifyTeamFilter(teamTexts, expectedTeam) != Pass ==> r == Fail(TeamMismatch(expectedTeam))
    ensures VerifyTeamFilter(teamTexts, expectedTeam) == Pass && r != Pass ==>
              exists k :: 0 <= k < |typeTexts|
                          && (forall j :: 0 <= j < k ==>
                                VerifyTitleCorrespondsToType(mapping, expectedType, Trim(typeTexts[j])) == Pass)
                          && r == VerifyTitleCorrespondsToType(mapping, expectedType, Trim(typeTexts[k]))
  {
    r := VerifyTeamFilter(teamTexts, expectedTeam);
    if r != Pass {
      return;
    }
    r := VerifyTypeFilter(mapping, expectedType, typeTexts);
    if r != Pass {
      return;
    }
    var _ := VerifySortingByDate(order, detailTexts);
  }

  /** `verifyCombinedFilters` with the corrected date check: the filters as
      before, then the kept counts must run in the chosen order. */
  method VerifyCombinedFiltersChecked(mapping: map<string, string>, expectedTeam: string, expectedType: string,
                                      order: string, teamTexts: seq<string>, typeTexts: seq<string>,
                                      detailTexts: seq<string>)
    returns (r: Outcome)
    ensures r == Pass <==>
              VerifyTeamFilter(teamTexts, expectedTeam) == Pass
              && (forall k :: 0 <= k < |typeTexts| ==>
                    VerifyTitleCorrespondsToType(mapping, expectedType, Trim(typeTexts[k])) == Pass)
              && SortedFor(KeptDays(detailTexts), order)
    ensures VerifyTeamFilter(teamTexts, expectedTeam) != Pass ==> r == Fail(TeamMismatch(expectedTeam))
    ensures VerifyTeamFilter(teamTexts, expectedTeam) == Pass
            && (forall k :: 0 <= k < |typeTexts| ==>
                  VerifyTitleCorrespondsToType(mapping, expectedType, Trim(typeTexts[k])) == Pass)
            && r != Pass ==>
              r == Fail(NotSorted(order))
    ensures VerifyTeamFilter(teamTexts, expectedTeam) == Pass
            && (exists k :: 0 <= k < |typeTexts|
                  && VerifyTitleCorrespondsToType(mapping, expectedType, Trim(typeTexts[k])) != Pass) ==>
              exists k :: 0 <= k < |typeTexts|
                          && (forall j :: 0 <= j < k ==>
                                VerifyTitleCorrespondsToType(mapping, expectedType, Trim(typeTexts[j])) == Pass)
                          && r == VerifyTitleCorrespondsToType(mapping, expectedType, Trim(typeTexts[k]))
  {
    r := VerifyCombinedFilters(mapping, expectedTeam, expectedType, order, teamTexts, typeTexts, detailTexts);
    if r != Pass {
      return;
    }
    var _, sorted := VerifySortingByDateChecked(order, detailTexts);
    r := sorted;
  }
}
