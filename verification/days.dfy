/** The "N days ago" labels of the list: reading a day count with the regular
    expression `/(\d+) days ago/` (`parseDaysAgo` in tests/pages/listPage.js) and
    checking that the counts of a sorted list run in the chosen direction
    (`verifyDaysSorting` in tests/helpers/helper.js). */
module Days {
  import opened Outcomes
  import opened Text

  /** The literal part of the expression, after the digits. */
  const Suffix: string := " days ago"

  predicate AllDigits(d: string) {
    forall k :: 0 <= k < |d| ==> IsDigit(d[k])
  }

  /** The end of the run of decimal digits that starts at `i`. */
  function DigitRunEnd(s: string, i: nat): (e: nat)
    requires i <= |s|
    ensures i <= e <= |s|
    ensures forall k :: i <= k < e ==> IsDigit(s[k])
    ensures e == |s| || !IsDigit(s[e])
    decreases |s| - i
  {
    if i < |s| && IsDigit(s[i]) then DigitRunEnd(s, i + 1) else i
  }

  /** The suffix occurs in `s` at position `e`. */
  predicate SuffixAt(s: string, e: nat) {
    e + |Suffix| <= |s| && s[e..e + |Suffix|] == Suffix
  }

  /** The expression matches at `i`: the greedy digit run starting there is followed
      by the suffix. Backtracking to a shorter run cannot help, since it would leave a
      digit where the suffix needs its leading space. */
  predicate MatchesAt(s: string, i: nat)
    requires i <= |s|
  {
    i < |s| && IsDigit(s[i]) && SuffixAt(s, DigitRunEnd(s, i))
  }

  /** Reference reading of the expression: the digits on `[i, j)` followed by the
      suffix, with the capture group holding `s[i..j]`. */
  ghost predicate Occurrence(s: string, i: int, j: int) {
    0 <= i < j <= |s| && AllDigits(s[i..j]) && SuffixAt(s, j)
  }

  /** The leftmost match at or after `i`, as the regular-expression engine scans. */
  function FirstMatch(s: string, i: nat): (r: Option<nat>)
    requires i <= |s|
    ensures r.Some? ==> i <= r.value < |s|
    decreases |s| - i
  {
    if i == |s| then None
    else if MatchesAt(s, i) then Some(i)
    else FirstMatch(s, i + 1)
  }

  /** The scan finds a match and no earlier one, or finds none because there is none. */
  lemma {:induction false} FirstMatchFacts(s: string, i: nat)
    requires i <= |s|
    ensures FirstMatch(s, i).Some? ==> MatchesAt(s, FirstMatch(s, i).value)
    ensures FirstMatch(s, i).Some? ==> forall j :: i <= j < FirstMatch(s, i).value ==> !MatchesAt(s, j)
    ensures FirstMatch(s, i).None? ==> forall j :: i <= j <= |s| ==> !MatchesAt(s, j)
    decreases |s| - i
  {
    if i < |s| && !MatchesAt(s, i) {
      FirstMatchFacts(s, i + 1);
    }
  }

  function DigitValue(c: char): nat
    requires IsDigit(c)
  {
    c as int - '0' as int
  }

  /** `parseInt(d, 10)` on a run of decimal digits. */
  function DigitsValue(d: string): nat
    requires AllDigits(d)
  {
    if d == [] then 0 else 10 * DigitsValue(d[..|d| - 1]) + DigitValue(d[|d| - 1])
  }

  /** A digit run followed by the suffix ends exactly where the greedy run ends. */
  lemma OccurrenceEnd(s: string, i: int, j: int)
    requires Occurrence(s, i, j)
    ensures j == DigitRunEnd(s, i) && MatchesAt(s, i)
  {
    assert s[j] == Suffix[0];
    assert s[i..j][0] == s[i];
  }

  lemma MatchOccurrence(s: string, i: nat)
    requires i <= |s| && MatchesAt(s, i)
    ensures Occurrence(s, i, DigitRunEnd(s, i))
  {
    var e := DigitRunEnd(s, i);
    assert i < e;
    forall k | 0 <= k < |s[i..e]| ensures IsDigit(s[i..e][k]) {
      assert s[i..e][k] == s[i + k];
    }
  }

  lemma NoMatchNoOccurrence(s: string)
    requires FirstMatch(s, 0).None?
    ensures forall i, j :: !Occurrence(s, i, j)
  {
    FirstMatchFacts(s, 0);
    forall i, j | Occurrence(s, i, j) ensures false {
      OccurrenceEnd(s, i, j);
    }
  }

  lemma FirstMatchLeftmost(s: string, i: nat)
    requires FirstMatch(s, 0) == Some(i)
    ensures Occurrence(s, i, DigitRunEnd(s, i))
    ensures forall i', j' :: Occurrence(s, i', j') ==> i <= i'
  {
    FirstMatchFacts(s, 0);
    MatchOccurrence(s, i);
    forall i', j' | Occurrence(s, i', j') ensures i <= i' {
      OccurrenceEnd(s, i', j');
    }
  }

  /** `s.match(/(\d+) days ago/)` followed by `parseInt(match[1], 10)`: the value of
      the leftmost match's digits, if there is a match. */
  function ParseDays(s: string): Option<nat> {
    match FirstMatch(s, 0)
    case None => None
    case Some(i) => Some(DigitsValue(s[i..DigitRunEnd(s, i)]))
  }

  /** There is no value exactly when no digit run followed by the suffix occurs;
      otherwise the value is that of the leftmost such digit run. */
  lemma ParseDaysMeaning(s: string)
    ensures ParseDays(s).None? <==> forall i, j :: !Occurrence(s, i, j)
    ensures ParseDays(s).Some? ==>
              exists i, j :: Occurrence(s, i, j) && ParseDays(s).value == DigitsValue(s[i..j])
                             && forall i', j' :: Occurrence(s, i', j') ==> i <= i'
  {
    match FirstMatch(s, 0)
    case None =>
      NoMatchNoOccurrence(s);
    case Some(i) =>
      FirstMatchLeftmost(s, i);
      var j := DigitRunEnd(s, i);
      assert Occurrence(s, i, j) && ParseDays(s).value == DigitsValue(s[i..j]);
  }

  /** The occurrence `ParseDays` reads is unique: the leftmost start fixes the end. */
  lemma ParseDaysReads(s: string, i: int, j: int)
    requires Occurrence(s, i, j)
    requires forall i', j' :: Occurrence(s, i', j') ==> i <= i'
    ensures ParseDays(s) == Some(DigitsValue(s[i..j]))
  {
    ParseDaysMeaning(s);
    var r := ParseDays(s);
    var i0, j0 :| Occurrence(s, i0, j0) && r.value == DigitsValue(s[i0..j0])
                  && forall i', j' :: Occurrence(s, i', j') ==> i0 <= i';
    assert i0 == i;
    OccurrenceEnd(s, i, j);
    OccurrenceEnd(s, i0, j0);
  }

  /** `parseDaysAgo`: the day count, or 0 when the text has no "N days ago". */
  function ParseDaysAgo(s: string): nat {
    ParseDays(s).GetOr(0)
  }

  /** A text without "N days ago" reads as 0; any other text reads as the value of
      its leftmost occurrence, which is the value `ParseDays` finds. */
  lemma ParseDaysAgoMeaning(s: string)
    ensures (forall i, j :: !Occurrence(s, i, j)) ==> ParseDaysAgo(s) == 0
    ensures ParseDays(s).Some? ==> ParseDaysAgo(s) == ParseDays(s).value
    ensures (exists i, j :: Occurrence(s, i, j)) ==>
              exists i, j :: Occurrence(s, i, j) && ParseDaysAgo(s) == DigitsValue(s[i..j])
                             && forall i', j' :: Occurrence(s, i', j') ==> i <= i'
  {
    ParseDaysMeaning(s);
  }

  /** A match starts with a digit and ends with the suffix's last letter, so it
      lies inside the part of `s` between two whitespace-only edges. */
  lemma OccurrenceInCore(s: string, i: nat, n: nat, a: int, b: int)
    requires i + n <= |s| && AllSpace(s[..i]) && AllSpace(s[i + n..])
    requires Occurrence(s, a, b)
    ensures i <= a && b + |Suffix| <= i + n
  {
    forall k | 0 <= k < i ensures IsSpace(s[k]) {
      assert s[..i][k] == s[k];
    }
    forall k | i + n <= k < |s| ensures IsSpace(s[k]) {
      assert s[i + n..][k - (i + n)] == s[k];
    }
    assert s[a..b][0] == s[a];
    assert s[b..b + |Suffix|][|Suffix| - 1] == s[b + |Suffix| - 1];
  }

  /** A match inside a middle part `s[i..i + n]` is a match of `s`, shifted by `i`. */
  lemma CoreOccurrence(s: string, i: nat, n: nat, a: int, b: int)
    requires i + n <= |s|
    requires Occurrence(s[i..i + n], a, b)
    ensures Occurrence(s, a + i, b + i)
    ensures s[i..i + n][a..b] == s[a + i..b + i]
  {
    var c := s[i..i + n];
    assert |c| == n;
    forall k | a <= k < b + |Suffix| ensures c[k] == s[k + i] {
    }
    assert c[a..b] == s[a + i..b + i];
    assert c[b..b + |Suffix|] == s[b + i..b + i + |Suffix|];
  }

  /** A match of `s` lying inside the middle part `s[i..i + n]` is a match of it. */
  lemma OccurrenceOfCore(s: string, i: nat, n: nat, a: int, b: int)
    requires i + n <= |s| && i <= a && b + |Suffix| <= i + n
    requires Occurrence(s, a, b)
    ensures Occurrence(s[i..i + n], a - i, b - i)
    ensures s[i..i + n][a - i..b - i] == s[a..b]
  {
    var c := s[i..i + n];
    assert |c| == n;
    forall k | a - i <= k < b - i + |Suffix| ensures c[k] == s[k + i] {
    }
    assert c[a - i..b - i] == s[a..b];
    assert c[b - i..b - i + |Suffix|] == s[b..b + |Suffix|];
  }

  /** The whitespace-only edges of `s` around its middle part `t`. */
  ghost predicate CoreOf(s: string, t: string, i: nat) {
    i + |t| <= |s| && t == s[i..i + |t|] && AllSpace(s[..i]) && AllSpace(s[i + |t|..])
  }

  /** With no match in `s`, its middle part has none either. */
  lemma CoreNoOccurrence(s: string, t: string, i: nat)
    requires CoreOf(s, t, i)
    requires forall a, b :: !Occurrence(s, a, b)
    ensures ParseDays(t) == None
  {
    forall a, b | Occurrence(t, a, b) ensures false {
      CoreOccurrence(s, i, |t|, a, b);
    }
    ParseDaysMeaning(t);
  }

  /** The leftmost match of `s` is, shifted, the leftmost match of its middle part. */
  lemma CoreLeftmost(s: string, t: string, i: nat, a: int, b: int)
    requires CoreOf(s, t, i)
    requires Occurrence(s, a, b) && forall a', b' :: Occurrence(s, a', b') ==> a <= a'
    ensures ParseDays(t) == Some(DigitsValue(s[a..b]))
  {
    OccurrenceInCore(s, i, |t|, a, b);
    OccurrenceOfCore(s, i, |t|, a, b);
    forall a', b' | Occurrence(t, a', b') ensures a - i <= a' {
      CoreOccurrence(s, i, |t|, a', b');
    }
    ParseDaysReads(t, a - i, b - i);
  }

  /** Where the trimmed text sits inside `s`. */
  lemma TrimCore(s: string) returns (i: nat)
    ensures CoreOf(s, Trim(s), i)
  {
    i := TrimSlice(s);
  }

  /** The occurrence a successful reading comes from. */
  lemma LeftmostOccurrence(s: string) returns (a: int, b: int)
    requires ParseDays(s).Some?
    ensures Occurrence(s, a, b) && ParseDays(s) == Some(DigitsValue(s[a..b]))
    ensures forall a', b' :: Occurrence(s, a', b') ==> a <= a'
  {
    ParseDaysMeaning(s);
    a, b :| Occurrence(s, a, b) && ParseDays(s).value == DigitsValue(s[a..b])
            && forall a', b' :: Occurrence(s, a', b') ==> a <= a';
  }

  /** Trimming does not change the reading: every match lies inside the trimmed
      text, at the same distance from the leftmost one. */
  lemma ParseDaysTrim(s: string)
    ensures ParseDays(Trim(s)) == ParseDays(s)
  {
    var i := TrimCore(s);
    if ParseDays(s).None? {
      ParseDaysMeaning(s);
      CoreNoOccurrence(s, Trim(s), i);
    } else {
      var a, b := LeftmostOccurrence(s);
      CoreLeftmost(s, Trim(s), i, a, b);
    }
  }

  // ---------------------------------------------------------------------------
  // Printing a count and reading it back

  function DigitChar(d: nat): (c: char)
    requires d < 10
    ensures IsDigit(c) && DigitValue(c) == d
  {
    ('0' as int + d) as char
  }

  /** The decimal numeral of `n`, without leading zeros. */
  function ShowNat(n: nat): (d: string)
    ensures |d| >= 1 && AllDigits(d)
    ensures |d| > 1 ==> d[0] != '0'
  {
    if n < 10 then [DigitChar(n)] else ShowNat(n / 10) + [DigitChar(n % 10)]
  }

  lemma {:induction false} ShowNatValue(n: nat)
    ensures DigitsValue(ShowNat(n)) == n
  {
    var d := ShowNat(n);
    if n >= 10 {
      ShowNatValue(n / 10);
      assert d[..|d| - 1] == ShowNat(n / 10);
    } else {
      assert d[..|d| - 1] == [];
    }
  }

  /** A label printed as "N days ago" reads back as N. */
  lemma ParseShowRoundTrip(n: nat)
    ensures ParseDays(ShowNat(n) + Suffix) == Some(n)
    ensures ParseDaysAgo(ShowNat(n) + Suffix) == n
  {
    var d := ShowNat(n);
    var s := d + Suffix;
    assert s[0..|d|] == d;
    assert s[|d|..|d| + |Suffix|] == Suffix;
    assert Occurrence(s, 0, |d|);
    ShowNatValue(n);
    ParseDaysReads(s, 0, |d|);
  }

  lemma NoSuffixRoom(s: string)
    requires |s| <= |Suffix|
    ensures ParseDays(s) == None && ParseDaysAgo(s) == 0
  {
    ParseDaysMeaning(s);
  }

  /** A one-digit count followed by the suffix reads as that digit. */
  lemma ParseOneDigit(s: string, d: nat)
    requires d < 10 && s == [DigitChar(d)] + Suffix
    ensures ParseDaysAgo(s) == d
  {
    assert s[0..1] == [DigitChar(d)];
    assert s[1..1 + |Suffix|] == Suffix;
    assert Occurrence(s, 0, 1);
    assert DigitsValue(s[0..1]) == d;
    ParseDaysReads(s, 0, 1);
  }

  /** A label that is not of the form "N days ago" reads as 0, including the
      singular "1 day ago" and "today". */
  lemma ParseDaysAgoExamples()
    ensures ParseDaysAgo("3 days ago") == 3
    ensures ParseDaysAgo("1 day ago") == 0
    ensures ParseDaysAgo("today") == 0
  {
    ParseOneDigit("3 days ago", 3);
    NoSuffixRoom("1 day ago");
    NoSuffixRoom("today");
  }

  lemma ParseTwo()
    ensures ParseDaysAgo("2 days ago") == 2
  {
    ParseOneDigit("2 days ago", 2);
  }

  lemma ParseFive()
    ensures ParseDaysAgo("5 days ago") == 5
  {
    ParseOneDigit("5 days ago", 5);
  }

  // ---------------------------------------------------------------------------
  // verifyDaysSorting

  /** The day counts `verifyDaysSorting` keeps: each text trimmed and parsed; a text
      with no match (null) and a count of zero are both dropped by `filter(Boolean)`. */
  function KeptDays(texts: seq<string>): (r: seq<nat>)
    ensures |r| <= |texts|
    ensures forall k :: 0 <= k < |r| ==> r[k] > 0
  {
    if texts == [] then []
    else
      var rest := KeptDays(texts[1..]);
      match ParseDays(Trim(texts[0]))
      case Some(n) => if n > 0 then [n] + rest else rest
      case None => rest
  }

  /** One text is kept as its count when it reads as a positive count, and
      dropped otherwise; trimming first makes no difference to the reading. */
  lemma KeptDaysOne(t: string)
    ensures KeptDays([t]) == (if ParseDays(Trim(t)).Some? && ParseDays(Trim(t)).value > 0
                              then [ParseDays(Trim(t)).value] else [])
    ensures KeptDays([t]) == (if ParseDaysAgo(t) > 0 then [ParseDaysAgo(t)] else [])
  {
    assert [t][1..] == [];
    ParseDaysTrim(t);
  }

  /** Each text contributes its count, or nothing, independently of the others. */
  lemma {:induction false} KeptDaysAppend(a: seq<string>, b: seq<string>)
    ensures KeptDays(a + b) == KeptDays(a) + KeptDays(b)
    decreases |a|
  {
    if a == [] {
      assert a + b == b;
    } else {
      assert (a + b)[0] == a[0];
      assert (a + b)[1..] == a[1..] + b;
      KeptDaysAppend(a[1..], b);
    }
  }

  /** When every text reads as a positive count, all of them are kept, in order. */
  lemma {:induction false} KeptDaysAll(texts: seq<string>)
    requires forall k :: 0 <= k < |texts| ==> ParseDays(Trim(texts[k])).Some? && ParseDays(Trim(texts[k])).value > 0
    ensures |KeptDays(texts)| == |texts|
    ensures forall k :: 0 <= k < |texts| ==> KeptDays(texts)[k] == ParseDays(Trim(texts[k])).value
  {
    if texts != [] {
      assert ParseDays(Trim(texts[0])).Some?;
      assert forall k :: 0 <= k < |texts[1..]| ==> texts[1..][k] == texts[k + 1];
      KeptDaysAll(texts[1..]);
    }
  }

  predicate NonIncreasing(days: seq<nat>) {
    forall i, j :: 0 <= i < j < |days| ==> days[j] <= days[i]
  }

  predicate NonDecreasing(days: seq<nat>) {
    forall i, j :: 0 <= i < j < |days| ==> days[i] <= days[j]
  }

  /** Sorted in `order`, read on the day counts: the dates ascend ("asc") exactly when
      the counts of days ago do not increase; any other order asks for dates that
      do not ascend. Equal counts are allowed either way. */
  predicate SortedFor(days: seq<nat>, order: string) {
    if order == "asc" then NonIncreasing(days) else NonDecreasing(days)
  }

  /** One adjacent comparison of the `every` callback, on dates expressed as a
      signed day offset from today. */
  predicate DateStepOk(dates: seq<int>, k: nat, ascending: bool)
    requires 0 < k < |dates|
  {
    if ascending then dates[k] >= dates[k - 1] else dates[k] <= dates[k - 1]
  }

  /** Today minus each count, in days. */
  function DatesOf(days: seq<nat>): (dates: seq<int>)
    ensures |dates| == |days|
    ensures forall k :: 0 <= k < |days| ==> dates[k] + days[k] == 0
  {
    seq(|days|, k requires 0 <= k < |days| => -(days[k] as int))
  }

  lemma {:induction false} StepsChain(days: seq<nat>, ascending: bool, i: nat, j: nat)
    requires forall k :: 0 < k < |days| ==> DateStepOk(DatesOf(days), k, ascending)
    requires i <= j < |days|
    ensures ascending ==> days[j] <= days[i]
    ensures !ascending ==> days[i] <= days[j]
    decreases j - i
  {
    if i < j {
      StepsChain(days, ascending, i, j - 1);
      assert DateStepOk(DatesOf(days), j, ascending);
    }
  }

  /** Comparing neighbours is the same as comparing every pair. */
  lemma StepsSorted(days: seq<nat>, order: string, ascending: bool)
    requires ascending <==> order == "asc"
    ensures (forall k :: 0 < k < |days| ==> DateStepOk(DatesOf(days), k, ascending))
            <==> SortedFor(days, order)
  {
    var dates := DatesOf(days);
    if forall k :: 0 < k < |days| ==> DateStepOk(dates, k, ascending) {
      forall i, j | 0 <= i < j < |days|
        ensures ascending ==> days[j] <= days[i]
        ensures !ascending ==> days[i] <= days[j]
      {
        StepsChain(days, ascending, i, j);
      }
    }
    if SortedFor(days, order) {
      forall k | 0 < k < |days| ensures DateStepOk(dates, k, ascending) {
        assert dates[k] + days[k] == 0 && dates[k - 1] + days[k - 1] == 0;
      }
    }
  }

  /** The `every` comparison of `verifyDaysSorting`: the counts become dates and
      every date is compared with the one before it; the check fails with the
      order's name unless the dates run in that order. */
  method CheckDaysOrder(days: seq<nat>, order: string) returns (r: Outcome)
    ensures r == Pass <==> SortedFor(days, order)
    ensures r != Pass ==> r == Fail(NotSorted(order))
  {
    var dates := DatesOf(days);
    var ascending := order == "asc";
    StepsSorted(days, order, ascending);
    var i := 0;
    while i < |dates|
      invariant 0 <= i <= |dates|
      invariant forall k :: 0 < k < i ==> DateStepOk(dates, k, ascending)
    {
      if i > 0 && !DateStepOk(dates, i, ascending) {
        return Fail(NotSorted(order));
      }
      i := i + 1;
    }
    return Pass;
  }

  /** `verifyDaysSorting`: the texts are read into the kept counts, whose dates
      must run in the chosen order. */
  method VerifyDaysSorting(texts: seq<string>, order: string) returns (r: Outcome)
    ensures r == Pass <==> SortedFor(KeptDays(texts), order)
    ensures r != Pass ==> r == Fail(NotSorted(order))
  {
    var days := KeptDays(texts);
    r := CheckDaysOrder(days, order);
  }
}
