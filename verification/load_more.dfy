/** `clickLoadMoreUntilNotPresent` of tests/helpers/helper.js: click "Load More"
    while it is shown, and fail as soon as a click does not grow the list.

    The page is an input here: the item count and button visibility before the
    first click, then one observation per click, in order. */
module LoadMore {
  import opened Outcomes

  /** What the page shows after one click: the number of list items, and whether
      the button is still shown. The helper reads the visibility twice after a click
      (the check before `break`, then the loop test); either read coming back false
      ends the loop the same way, so one flag stands for "both reads show it". */
  datatype Observation = Observation(count: nat, stillVisible: bool)

  /** How the loop ended. `click` numbers clicks from 0. */
  datatype Run =
    | Finished(clicks: nat, finalCount: nat)       // the button disappeared
    | Stalled(click: nat, before: nat, after: nat) // the throw, with the logged counts
    | Unfinished(clicks: nat)                      // the observations ran out first

  /** The item count the helper compares click `k`'s count with. */
  function CountBefore(initialCount: nat, obs: seq<Observation>, k: nat): nat
    requires k <= |obs|
  {
    if k == 0 then initialCount else obs[k - 1].count
  }

  /** Click `k` added at least one item. */
  predicate ClickGrew(initialCount: nat, obs: seq<Observation>, k: nat)
    requires k < |obs|
  {
    obs[k].count > CountBefore(initialCount, obs, k)
  }

  /** Each of the first `n` clicks added at least one item. */
  predicate GrewThrough(initialCount: nat, obs: seq<Observation>, n: nat)
    requires n <= |obs|
  {
    forall k :: 0 <= k < n ==> ClickGrew(initialCount, obs, k)
  }

  /** The button was still shown after each of the first `n` clicks. */
  predicate VisibleThrough(obs: seq<Observation>, n: nat)
    requires n <= |obs|
  {
    forall k :: 0 <= k < n ==> obs[k].stillVisible
  }

  /** What the helper does with the page: it clicks while the button is shown,
      fails at the first click that leaves the count where it was or lower, and
      otherwise stops after the click that hides the button. A button hidden from
      the start means no click at all; a button shown at the start means at least
      one click. `RunDetermined` shows at most one run fits a page. */
  predicate Explains(initialCount: nat, initiallyVisible: bool, obs: seq<Observation>, run: Run)
  {
    (!initiallyVisible <==> run == Finished(0, initialCount))
    && (run.Finished? && initiallyVisible ==> run.clicks > 0)
    && (run.Finished? && run.clicks > 0 ==>
          run.clicks <= |obs|
          && GrewThrough(initialCount, obs, run.clicks)
          && VisibleThrough(obs, run.clicks - 1)
          && !obs[run.clicks - 1].stillVisible
          && run.finalCount == obs[run.clicks - 1].count)
    && (run.Stalled? ==>
          initiallyVisible && run.click < |obs|
          && GrewThrough(initialCount, obs, run.click)
          && VisibleThrough(obs, run.click)
          && run.before == CountBefore(initialCount, obs, run.click)
          && run.after == obs[run.click].count
          && run.after <= run.before)
    && (run.Unfinished? ==>
          initiallyVisible && run.clicks == |obs|
          && GrewThrough(initialCount, obs, |obs|)
          && VisibleThrough(obs, |obs|))
  }

  /** The loop of the helper; `before` and `after` of a stalled run are the two
      counts it logs around the failing click. */
  method ClickLoadMoreUntilNotPresent(initialCount: nat, initiallyVisible: bool, obs: seq<Observation>)
    returns (run: Run)
    ensures Explains(initialCount, initiallyVisible, obs, run)
  {
    if !initiallyVisible {
      return Finished(0, initialCount);
    }
    var previousItemCount := initialCount;
    var i := 0;
    while i < |obs|
      invariant 0 <= i <= |obs|
      invariant previousItemCount == CountBefore(initialCount, obs, i)
      invariant GrewThrough(initialCount, obs, i) && VisibleThrough(obs, i)
    {
      var newItemCount := obs[i].count;
      if newItemCount <= previousItemCount {
        return Stalled(i, previousItemCount, newItemCount);
      }
      previousItemCount := newItemCount;
      if !obs[i].stillVisible {
        return Finished(i + 1, previousItemCount);
      }
      i := i + 1;
    }
    return Unfinished(|obs|);
  }

  /** How the helper ends: it returns once the button is gone and throws at a
      stalled click. A run whose observations ran out has not ended, so it has no
      outcome yet. */
  function RunOutcome(run: Run): (r: Option<Outcome>)
    ensures r.None? <==> run.Unfinished?
    ensures r == Some(Pass) <==> run.Finished?
    ensures r == Some(Fail(StalledPagination)) <==> run.Stalled?
  {
    match run
    case Finished(_, _) => Some(Pass)
    case Stalled(_, _, _) => Some(Fail(StalledPagination))
    case Unfinished(_) => None
  }

  /** Counts observed while every click added items rise strictly, and each click
      adds at least one item to the initial count. */
  lemma {:induction false} CountsClimb(initialCount: nat, obs: seq<Observation>, n: nat)
    requires n <= |obs| && GrewThrough(initialCount, obs, n)
    ensures forall i, j :: 0 <= i < j < n ==> obs[i].count < obs[j].count
    ensures forall k :: 0 <= k < n ==> obs[k].count >= initialCount + k + 1
    decreases n
  {
    if n > 0 {
      CountsClimb(initialCount, obs, n - 1);
      assert ClickGrew(initialCount, obs, n - 1);
    }
  }

  /** A run that ends with the button hidden has shown at least one new item per
      click. */
  lemma FinishedGrowth(initialCount: nat, obs: seq<Observation>, run: Run)
    requires run.Finished? && run.clicks > 0 && run.clicks <= |obs|
    requires GrewThrough(initialCount, obs, run.clicks) && run.finalCount == obs[run.clicks - 1].count
    ensures run.finalCount >= initialCount + run.clicks
  {
    CountsClimb(initialCount, obs, run.clicks);
  }

  /** At most one run fits a page: the contract of the loop pins its result down. */
  lemma RunDetermined(initialCount: nat, initiallyVisible: bool, obs: seq<Observation>, r1: Run, r2: Run)
    requires Explains(initialCount, initiallyVisible, obs, r1)
    requires Explains(initialCount, initiallyVisible, obs, r2)
    ensures r1 == r2
  {
    if initiallyVisible {
      EndOf(initialCount, obs, r1);
      EndOf(initialCount, obs, r2);
      var e1, e2 := EndClick(r1), EndClick(r2);
      if e1 < e2 {
        assert false;
      } else if e2 < e1 {
        assert false;
      }
    }
  }

  /** The index of the click a run ends at, or the number of observations for a
      run that ran out of them. */
  function EndClick(run: Run): nat
  {
    match run
    case Finished(clicks, _) => if clicks > 0 then clicks - 1 else 0
    case Stalled(click, _, _) => click
    case Unfinished(clicks) => clicks
  }

  /** With the button shown at the start, a run ends at the first click that adds
      nothing or hides the button, and every click before it did neither. */
  lemma EndOf(initialCount: nat, obs: seq<Observation>, run: Run)
    requires Explains(initialCount, true, obs, run)
    ensures EndClick(run) <= |obs|
    ensures run.Unfinished? <==> EndClick(run) == |obs|
    ensures forall k :: 0 <= k < EndClick(run) ==> ClickGrew(initialCount, obs, k) && obs[k].stillVisible
    ensures run.Finished? ==>
              run.clicks == EndClick(run) + 1
              && ClickGrew(initialCount, obs, EndClick(run)) && !obs[EndClick(run)].stillVisible
              && run.finalCount == obs[EndClick(run)].count
    ensures run.Stalled? ==>
              !ClickGrew(initialCount, obs, EndClick(run))
              && run.before == CountBefore(initialCount, obs, EndClick(run))
              && run.after == obs[EndClick(run)].count
  {
  }

  /** A shown button whose first click adds nothing makes the helper throw at
      once. */
  lemma FirstClickStalls(initialCount: nat, obs: seq<Observation>, run: Run)
    requires |obs| > 0 && obs[0].count <= initialCount
    requires Explains(initialCount, true, obs, run)
    ensures run == Stalled(0, initialCount, obs[0].count)
    ensures RunOutcome(run) == Some(Fail(StalledPagination))
  {
    RunDetermined(initialCount, true, obs, run, Stalled(0, initialCount, obs[0].count));
  }
}
