/** `verifyTeamFilter` of tests/helpers/helper.js: after filtering by team, every
    team label shown in the list must name the chosen team. */
module Teams {
  import opened Outcomes
  import opened Text

  /** Each label is trimmed and compared with `expectedTeam` exactly (case and inner
      spacing included); any other label fails the check with the expected team's
      name. An empty list passes. */
  function VerifyTeamFilter(texts: seq<string>, expectedTeam: string): (r: Outcome)
    ensures r == Pass <==> forall k :: 0 <= k < |texts| ==> Trim(texts[k]) == expectedTeam
    ensures r != Pass ==> r == Fail(TeamMismatch(expectedTeam))
  {
    if texts == [] then Pass
    else if Trim(texts[0]) != expectedTeam then Fail(TeamMismatch(expectedTeam))
    else
      var rest := VerifyTeamFilter(texts[1..], expectedTeam);
      assert forall k :: 1 <= k < |texts| ==> texts[k] == texts[1..][k - 1];
      rest
  }

  /** The same verdict read on the set of trimmed labels: the filter passes exactly
      when no trimmed label other than the expected team occurs. */
  lemma TeamFilterAsSet(texts: seq<string>, expectedTeam: string)
    ensures VerifyTeamFilter(texts, expectedTeam) == Pass
            <==> (set t | t in texts :: Trim(t)) <= {expectedTeam}
  {
    var labels := set t | t in texts :: Trim(t);
    if VerifyTeamFilter(texts, expectedTeam) == Pass {
      forall x | x in labels ensures x == expectedTeam {
        var t :| t in texts && x == Trim(t);
        var k :| 0 <= k < |texts| && texts[k] == t;
      }
    } else {
      var k :| 0 <= k < |texts| && Trim(texts[k]) != expectedTeam;
      assert texts[k] in texts;
      assert Trim(texts[k]) in labels;
    }
  }

  /** Checking a list in two parts gives the verdict of checking it whole. */
  lemma TeamFilterAppend(a: seq<string>, b: seq<string>, expectedTeam: string)
    ensures VerifyTeamFilter(a + b, expectedTeam)
            == VerifyTeamFilter(a, expectedTeam).Then(VerifyTeamFilter(b, expectedTeam))
  {
    if VerifyTeamFilter(a, expectedTeam) == Pass && VerifyTeamFilter(b, expectedTeam) == Pass {
      forall k | 0 <= k < |a + b| ensures Trim((a + b)[k]) == expectedTeam {
        if k >= |a| {
          assert (a + b)[k] == b[k - |a|];
        }
      }
    } else if VerifyTeamFilter(a, expectedTeam) != Pass {
      var k :| 0 <= k < |a| && Trim(a[k]) != expectedTeam;
      assert (a + b)[k] == a[k];
    } else {
      var k :| 0 <= k < |b| && Trim(b[k]) != expectedTeam;
      assert (a + b)[|a| + k] == b[k];
    }
  }

  lemma PaddedRoot()
    ensures Trim(" Root ") == "Root"
  {
    assert " Root " == " " + "Root" + " ";
    TrimPadded(" ", "Root", " ");
  }

  /** Padding around a label is ignored, a different team is not. */
  lemma TeamFilterExamples()
    ensures VerifyTeamFilter([" Root "], "Root") == Pass
    ensures VerifyTeamFilter(["Root", "Normandy"], "Root") == Fail(TeamMismatch("Root"))
    ensures VerifyTeamFilter([], "Root") == Pass
  {
    PaddedRoot();
    TrimFixesTrimmed("Normandy");
  }
}
