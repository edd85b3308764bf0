# List-page verification helpers, modelled in Dafny

This project models the checking logic of a Playwright end-to-end suite for an
actions list page. Each item on the page is a transaction such as a payment, a
mint or a transfer. It shows a title, a type attribute, a team label and an age
("3 days ago"). The suite has three parts, and each is a Dafny module here:

- **Category registry** (`tests/data/transactionMapping.js`): one title template
  per upper-case category, for example `Pay <user> <amount> <symbol>`. This is
  `Registry`.
- **Helpers** (`tests/helpers/helper.js`):
  - the title check, in `Matcher` and `TitleCheck`;
  - the "Load More" pagination loop, in `LoadMore`;
  - the date-order check, in `Days`;
  - the team filter, in `Teams`;
  - the type filter, in `TitleCheck`.
- **List page object** (`tests/pages/listPage.js`): the list, count, title,
  sorting and combined-filter checks, in `ListPage`.

`Outcomes` and `Text` hold what the others share:

- A check either returns normally (`Pass`) or throws. A throw becomes
  `Fail(f)`, where `f` names the `throw` statement and carries the values its
  message interpolates.
- `Text` holds the JavaScript string operations involved: `trim`, the `\s`
  whitespace class, `join`, `replace(/\s+/g, ' ')` and `toUpperCase`.

Nothing is read from a browser. What the page shows becomes an argument:

- the texts of the selected elements;
- the item count;
- the sequence of counts and button visibilities seen after each click.

The registry is an argument of the title check, as it is in the helper. The
suite always passes `Registry.TransactionMapping`.

Two operations are modelled as regular-expression matchers, each with an
independent reference meaning proved equal to it:

- **The title test.** It is `new RegExp(template.replace(/<.*?>/g, '.*'), 'i').test(title)`.
  Its reference meaning is `Matcher.ContainsInstance`: some substring of the
  title equals the template, up to letter case, with each placeholder filled by
  text that has no line terminator.
- **The day-count parse.** It is `/(\d+) days ago/` followed by `parseInt`. Its
  reference meaning is the leftmost occurrence of a digit run followed by
  " days ago" (`Days.Occurrence`).

## Model

| member | source | states |
|---|---|---|
| Registry.RegistryKeys | tests/data/transactionMapping.js:2-13 | The registry has exactly the ten categories MINT, PAYMENT, TRANSFER, REPUTATION, PERMISSIONS, UPGRADE, DETAILS, ADDRESS, TEAM and GENERIC. |
| Registry.TransactionMapping | tests/data/transactionMapping.js:2-13 | The exported mapping, verbatim. Its keys are stated by `RegistryKeys` and its templates by `ShapesDescribeRegistry`. |
| Registry.TemplatesNonEmpty | tests/data/transactionMapping.js:3-12 | No template is the empty string, so every category's looked-up template counts as true. |
| Registry.KeysUpperCase | tests/data/transactionMapping.js:3-12 | Every category name is made of upper-case ASCII letters, so it is what `toUpperCase` yields for any spelling of it. |
| Registry.ShapesDescribeRegistry | tests/data/transactionMapping.js:3-12 | Each template is literal text and `<name>` placeholders. Written out, the pieces give back the template string. No literal text holds a regular-expression metacharacter. |
| Registry.CompiledRegistry | tests/data/transactionMapping.js:3-12 | After the `<.*?>` replace, each template's pattern is its literal text character by character plus one wildcard per placeholder. None of its literal characters is a metacharacter. |
| Registry.PlainCategories | tests/data/transactionMapping.js:9-12 | DETAILS, ADDRESS and GENERIC have no placeholder. Each accepts exactly the titles that contain its text in any letter case. |
| Registry.AnyCasingFindsKey | tests/helpers/helper.js:124-126 | Upper-casing any mix of upper and lower case letters that spells a category finds that category. |
| Matcher.CompileRender | tests/helpers/helper.js:130 | For any well-formed template, the lazy global replace turns each `<...>` into exactly one wildcard and keeps every other character as a literal. |
| Matcher.Compile | tests/helpers/helper.js:130 | The lazy global replace of `<...>` by a wildcard. Its meaning is stated by `CompileRender`. |
| Matcher.Test | tests/helpers/helper.js:130-131 | The case-insensitive, unanchored search succeeds exactly when some substring of the title is an instance of the template, with placeholders filled by text free of line breaks. |
| Matcher.Unanchored | tests/helpers/helper.js:130-131 | Text before or after an accepted title never makes it rejected. |
| Matcher.PlainTemplate | tests/helpers/helper.js:130-131 | A template without `<` is searched for as plain text, ignoring letter case. |
| Matcher.TestNeedsLiterals | tests/helpers/helper.js:130-131 | An accepted title holds, for every character, at least as many copies (up to case) as the template's literal text. |
| Matcher.ShapeAccepts | tests/helpers/helper.js:130-131 | A template accepts every title made by filling its placeholders with text free of line breaks. |
| Matcher.ShapeRejects | tests/helpers/helper.js:130-133 | A title with fewer copies of some character than the template's literal text is rejected. |
| Matcher.InstantiateAppend | tests/data/transactionMapping.js:5 | Filling the placeholders of a template made of two parts fills each part with its own values. |
| TitleCheck.VerifyTitleCorrespondsToType | tests/helpers/helper.js:123-140 | The upper-cased category is selected only when it has a template and that template is not the empty string, since the helper tests the looked-up value for truth. A category that is not selected fails with its upper-cased name. A selected one passes exactly when the title contains an instance of its template; otherwise it fails naming the category, the title and the template. |
| TitleCheck.EmptyTemplateRefused | tests/helpers/helper.js:126-138 | A category mapped to the empty string fails as if it had no entry, though its empty pattern would match every title. |
| TitleCheck.RegistrySelectsKeys | tests/helpers/helper.js:126 | With the suite's registry, the truthiness test selects exactly the registry's categories. |
| TitleCheck.CategoryCasingIrrelevant | tests/helpers/helper.js:124-132 | With the suite's registry, any casing of a category passes and fails on the same titles as the category itself. |
| TitleCheck.AcceptedWithSurroundingText | tests/helpers/helper.js:130-131 | A title that passes still passes with any text added around it. |
| TitleCheck.AllIsUnknown | tests/helpers/helper.js:126-138 | The filter option "All" has no registry entry, so the title check on it fails with "ALL". |
| TitleCheck.PaymentExamples | tests/helpers/helper.js:124-132 | "Pay alice 10 GOLD" passes as a Payment. "Pay alice" fails as PAYMENT, because it has too few spaces for the template. |
| TitleCheck.TransferTeamsIndependent | tests/data/transactionMapping.js:5 | TRANSFER uses `<team>` twice, yet the two need not be equal: a transfer from one team to a different team passes. |
| TitleCheck.VerifyTypeFilter | tests/helpers/helper.js:249-267 | It passes exactly when every trimmed type text passes the title check for the expected type. Otherwise it reports the first failing text's failure. A type the registry does not select passes only an empty list. |
| Text.Trim | tests/helpers/helper.js:237 | The trimmed text neither starts nor ends with whitespace and is no longer than the input. |
| Text.TrimSlice | tests/helpers/helper.js:259 | The trimmed text is a contiguous middle part of the input, at the returned offset, and everything cut from either end is whitespace. |
| Text.TrimPadded | tests/helpers/helper.js:237 | Trimming whitespace padding around text that has no edge whitespace gives back that text. |
| Text.TrimIdempotent | tests/helpers/helper.js:259 | Trimming twice is trimming once. |
| Text.ToUpperPointwise | tests/helpers/helper.js:124 | Upper-casing works character by character. A string whose every character upper-cases to the matching character of another string upper-cases to that string. |
| Text.ToUpper | tests/helpers/helper.js:124 | Upper-casing never loses a character, though a character may become two or three. Its value is given character by character by `ToUpperPointwise`. |
| Text.CollapseShape | tests/pages/listPage.js:127 | After `replace(/\s+/g, ' ')` the only whitespace left is single plain spaces. Every other character is kept in order, and an edge whitespace run becomes one space. |
| Text.Collapse | tests/pages/listPage.js:127 | The collapse never lengthens the text. `CollapseShape`, `CollapseInteriorRun` and `CollapseFixesSingleSpaced` state what it keeps and what it replaces. |
| Text.CollapseAppend | tests/pages/listPage.js:127 | Text ending in a non-whitespace character collapses on its own, whatever follows it. No whitespace run reaches across that boundary. |
| Text.CollapseLeadingRun | tests/pages/listPage.js:127 | A leading whitespace run of any length becomes one plain space. |
| Text.CollapseInteriorRun | tests/pages/listPage.js:127 | A whitespace run between two non-whitespace characters, however long and of whatever whitespace, becomes exactly one plain space. The text on either side collapses independently. |
| Text.CollapseFixesSingleSpaced | tests/pages/listPage.js:127 | Text that already has single plain spaces only is left unchanged by the collapse. |
| Text.NormaliseShape | tests/pages/listPage.js:124-127 | A cleaned title has no edge whitespace, only single plain spaces inside and no line terminator. It keeps the non-whitespace characters of the joined inner texts in order, and cleaning it again changes nothing. |
| Text.Normalise | tests/pages/listPage.js:124-127 | The cleaned title is never longer than the joined inner texts. `NormaliseShape` and `NormaliseCleanParts` state its shape. |
| Text.JoinEdges | tests/pages/listPage.js:124 | Joining parts that are not empty starts with the first part's first character and ends with the last part's last character. |
| Text.CollapseEach | tests/pages/listPage.js:127 | Each part is collapsed on its own, in order. |
| Text.CollapseJoin | tests/pages/listPage.js:124-127 | Parts with no edge whitespace, joined with one space, collapse part by part. The joining space stays one space. |
| Text.NormaliseCleanParts | tests/pages/listPage.js:124-127 | Inner texts that are not empty and have no edge whitespace clean to their own collapses joined with exactly one space. |
| Text.NormaliseInteriorRun | tests/pages/listPage.js:124-127 | Inside one inner text, a whitespace run between two words, a line break included, becomes exactly one space in the cleaned title. |
| Days.ParseDaysMeaning | tests/pages/listPage.js:201-204 | There is no value exactly when no digit run followed by " days ago" occurs. Otherwise the value is that of the leftmost such digit run. |
| Days.ParseDays | tests/pages/listPage.js:202-203 | The regular-expression match and `parseInt`. Its meaning is stated by `ParseDaysMeaning`. |
| Days.ParseDaysReads | tests/pages/listPage.js:202-203 | The leftmost occurrence determines the parsed value. |
| Days.ParseDaysAgoMeaning | tests/pages/listPage.js:201-204 | The result is 0 when the text has no "N days ago". Otherwise it is the value `ParseDays` finds, which is the value of the leftmost occurrence. |
| Days.ParseDaysAgo | tests/pages/listPage.js:201-204 | The day count, or 0 without a match. Its meaning is stated by `ParseDaysAgoMeaning`. |
| Days.ParseDaysTrim | tests/helpers/helper.js:197-200 | Trimming the text first never changes the reading, because a match starts with a digit and ends with a letter. |
| Days.ShowNatValue | tests/pages/listPage.js:203 | Reading the decimal numeral of a number in base ten gives back the number. |
| Days.ParseShowRoundTrip | tests/pages/listPage.js:201-204 | "N days ago", with N written in decimal, reads back as N. |
| Days.ParseDaysAgoExamples | tests/pages/listPage.js:201-204 | "3 days ago" reads as 3. The singular "1 day ago" and "today" read as 0. |
| Days.KeptDays | tests/helpers/helper.js:195-202 | Only positive counts are kept, and never more than there are texts. `KeptDaysOne` and `KeptDaysAppend` give its exact value. |
| Days.KeptDaysOne | tests/helpers/helper.js:196-201 | One text is kept as its count exactly when its trimmed text reads as a positive count, and is dropped otherwise. This is the same as `parseDaysAgo` on the untrimmed text being positive. |
| Days.KeptDaysAppend | tests/helpers/helper.js:196-201 | Each text contributes its count or nothing, independently of its neighbours. |
| Days.KeptDaysAll | tests/helpers/helper.js:196-201 | When every text reads as a positive count, all of them are kept, in order. |
| Days.StepsSorted | tests/helpers/helper.js:207-216 | Comparing each date with the one before it is the same as requiring every pair to be in order. For "asc" that means day counts that never increase; for any other order, counts that never decrease. |
| Days.CheckDaysOrder | tests/helpers/helper.js:206-220 | Comparing each date with the one before it passes exactly when the counts run in the requested order. Otherwise it fails naming that order. |
| Days.VerifyDaysSorting | tests/helpers/helper.js:194-223 | It passes exactly when the kept counts run in the requested order. Otherwise it fails naming that order. |
| Teams.VerifyTeamFilter | tests/helpers/helper.js:236-246 | It passes exactly when every trimmed label equals the expected team. Otherwise it fails naming the expected team. |
| Teams.TeamFilterAsSet | tests/helpers/helper.js:237-240 | It passes exactly when the set of trimmed labels holds nothing but the expected team. |
| Teams.TeamFilterAppend | tests/helpers/helper.js:240 | Checking a list in two parts gives the same verdict as checking it whole. |
| Teams.TeamFilterExamples | tests/helpers/helper.js:236-243 | Padding around a label is ignored. A different team fails. An empty list passes. |
| LoadMore.ClickLoadMoreUntilNotPresent | tests/helpers/helper.js:143-174 | A button hidden from the start means no click, and a button shown at the start means at least one click. The loop stops with success after the click that hides the button, provided every click added items. It stops at the first click that does not grow the list; the run keeps the two counts the helper logs around that click. |
| LoadMore.RunDetermined | tests/helpers/helper.js:143-174 | At most one run fits a given page, so the loop's contract fixes its result. |
| LoadMore.FirstClickStalls | tests/helpers/helper.js:146-162 | When the button is shown and the first click adds nothing, the helper throws at that click. |
| LoadMore.RunOutcome | tests/helpers/helper.js:160-173 | A finished run returns normally, and exactly a stalled run throws. The thrown error carries no counts. A run whose observations ran out has no outcome yet. |
| LoadMore.CountsClimb | tests/helpers/helper.js:157-166 | While every click adds items, the observed counts rise strictly, and click k leaves at least k + 1 items more than at the start. |
| LoadMore.FinishedGrowth | tests/helpers/helper.js:143-174 | A finished run ends with at least one more item per click than at the start. |
| ListPage.VerifyListComponents | tests/pages/listPage.js:54-58 | It passes exactly when the list has at least one item. |
| ListPage.VerifyInitialListItemCount | tests/pages/listPage.js:90-95 | It passes exactly when the count equals the expected count, and otherwise fails carrying both numbers. |
| ListPage.DefaultCountExamples | tests/pages/listPage.js:90 | With no count given, 10 items pass and 11 fail. |
| ListPage.ItemVerdictMeaning | tests/pages/listPage.js:115-130 | An item tagged exactly GENERIC fails, and one with no type attribute fails. Any other item passes exactly when the registry selects its upper-cased type and its cleaned title contains an instance of that category's template. |
| ListPage.ItemVerdict | tests/pages/listPage.js:115-130 | The check of one item. Its meaning is stated by `ItemVerdictMeaning`. |
| ListPage.VerifyTitlesAndTypes | tests/pages/listPage.js:106-134 | It passes exactly when every item passes. Otherwise it reports the first failing item's failure. |
| ListPage.GenericGuardIsExact | tests/pages/listPage.js:118 | Any spelling other than exactly GENERIC goes on to the title check. |
| ListPage.LowerCaseGenericReachesTemplate | tests/pages/listPage.js:118-130 | An item typed "generic" slips past the guard. It is then judged against the GENERIC template. With a non-empty template free of placeholders, it passes exactly when its title contains that text in any case. |
| ListPage.DaysArray | tests/pages/listPage.js:161-189 | One count is read per item, in list order, each as `parseDaysAgo` reads the untrimmed details text. |
| ListPage.VerifySortingByDate | tests/pages/listPage.js:149-198 | "asc" picks "Oldest" and any other order picks "Newest". The counts are returned as collected, without comparing them with the order. |
| ListPage.SortingByDateAcceptsWrongOrder | tests/pages/listPage.js:149-198 | With "asc", a list showing "2 days ago" before "5 days ago" is returned normally, though it is not in that order. |
| ListPage.Positive | tests/helpers/helper.js:201 | Every kept count is positive, every positive count is kept, and nothing else is. |
| ListPage.PositiveOne | tests/helpers/helper.js:201 | One count is kept exactly when it is positive. |
| ListPage.PositiveAppend | tests/helpers/helper.js:201 | The filter keeps order and multiplicity: filtering a concatenation is concatenating the filtered parts. |
| ListPage.PositiveDaysArray | tests/helpers/helper.js:195-202 | The counts read from the untrimmed details texts, filtered, are exactly the counts `verifyDaysSorting` keeps from the same texts. |
| ListPage.VerifySortingByDateChecked | tests/helpers/helper.js:206-220 | It returns the report of `verifySortingByDate`. It passes exactly when `verifyDaysSorting` would pass on the same texts, that is when the positive counts run in the chosen order. Otherwise it fails naming the order. |
| ListPage.CheckedRefusesWrongOrder | tests/pages/listPage.js:148-198 | The checked version refuses "2 days ago" before "5 days ago" under "asc". |
| ListPage.CheckedAcceptsOldestFirst | tests/pages/listPage.js:148-198 | The checked version accepts "5 days ago" before "2 days ago" under "asc". |
| ListPage.VerifyCombinedFilters | tests/pages/listPage.js:247-251 | It passes exactly when the team filter and the type filter pass, whatever order the dates are in. A team mismatch is reported first, and otherwise the first failing type text's failure. |
| ListPage.VerifyCombinedFiltersChecked | tests/pages/listPage.js:247-251 | With the date order checked as well, it passes exactly when both filters pass and the kept counts run in the chosen order. A failing team filter fails naming the team. When the team filter passes and some type text fails, the failure is that of the first failing type text. Once both filters pass, its only failure names the order. |
| Outcomes.Outcome.Then | tests/pages/listPage.js:248-250 | Awaited checks in sequence pass only when both pass. A failure of the first is the result. After a pass, the second check's outcome is the result. |

## Left out

- Browser interaction is not modelled: navigation, clicks, hovering, waiting and reading elements. `filterByTeam` and `filterByType` are modelled only through the checks they end with. What the page shows is an argument.
- ListPage.VerifyListComponents: the five `checkElementVisibility` calls before the item check are not modelled. Only the item count is.
- LoadMore.ClickLoadMoreUntilNotPresent: the helper reads the button's visibility twice between clicks, once before `break` and once in the loop test. The model has one flag per click. Either read returning false ends the loop the same way.
- LoadMore.ClickLoadMoreUntilNotPresent: termination is not modelled. The page is a finite list of observations, and running out of them is the separate result `Unfinished`.
- Days.VerifyDaysSorting: the clock and `Date` arithmetic are replaced by the negated day count. This ignores a clock tick between two `new Date()` calls and local-time day lengths.
- Days.ParseDays: `parseInt` yields an exact integer here. Digit runs beyond 2^53 lose precision in JavaScript.
- Text.ToUpper: covers ASCII letters, plus the non-ASCII characters whose upper case is ASCII (dotless i, long s, sharp s and the Latin ligatures). Other characters are kept as they are, which does not change whether a registry key is found.
- Matcher.Test: covers only the characters the registry's templates use, with letter case folded on ASCII. Templates containing regular-expression metacharacters are not modelled; the registry has none. Surrogate pairs are not modelled.
- Logging (`console.log`) is not modelled. The two counts `clickLoadMoreUntilNotPresent` logs around a click are kept in the `Stalled` run, not in the thrown failure, whose message has no counts.
- The wording of the thrown messages is not modelled; a failure carries the values the message interpolates. The TypeError from upper-casing a missing type attribute is `MissingActionType`.
- The commented-out `selectSortOption` and the helper's own commented-out `parseDaysAgo` are not modelled.
- Other page-object methods are not modelled: `verifyFilterOptions`, `verifyListItemsElements`, `getItemCount` and `clickLoadMoreUntilHidden`. They only forward to browser helpers.
- Default arguments: only `verifyInitialListItemCount`'s default count of 10 is kept. The default `order = 'asc'` of the sorting checks is left to the caller.
- A template without placeholders is matched as a plain substring, anywhere in the title, in any case. This is what the code does, and is looser than an exact-format description of it.

## Findings

| source | as written | input that shows it | evidently intended | confidence | as-written member | corrected member |
|---|---|---|---|---|---|---|
| tests/pages/listPage.js:148-198 | `verifySortingByDate` collects the day counts and returns them, but never compares them with the chosen order. `verifyDaysSorting`, imported on line 2, is never called. | order "asc" and details texts "2 days ago", "5 days ago" | fail with "not sorted in asc order", as `verifyDaysSorting` would | not executed | ListPage.SortingByDateAcceptsWrongOrder | ListPage.VerifySortingByDateChecked |
| tests/pages/listPage.js:247-251 | `verifyCombinedFilters` ends with the unchecked `verifySortingByDate`, so it accepts the filtered list in any date order. | any team and type labels that pass, with details texts "2 days ago", "5 days ago" under "asc" | fail when the filtered list is not in the chosen order | not executed | ListPage.VerifyCombinedFilters | ListPage.VerifyCombinedFiltersChecked |
