/** `verifyTitleCorrespondsToType` and `verifyTypeFilter` of tests/helpers/helper.js:
    a title is checked against the template its category selects in the registry. */
module TitleCheck {
  import opened Outcomes
  import opened Text
  import opened Matcher
  import opened Registry
  import opened RegistryExamples

  /** The helper's `if (transactionMapping[category])`: the category has a template
      and that template is not the empty string, which JavaScript reads as false. */
  predicate Selects(mapping: map<string, string>, category: string) {
    category in mapping && mapping[category] != ""
  }

  /** The category is upper-cased and looked up in `mapping`; a category without a
      template, or with an empty one, fails before any matching, and any other
      passes exactly when the title contains an instance of its template. The
      registry is an argument, as in the helper; the suite always passes
      `Registry.TransactionMapping`. */
  function VerifyTitleCorrespondsToType(mapping: map<string, string>, actionType: string,
                                        cleanedTitle: string): (r: Outcome)
    ensures !Selects(mapping, ToUpper(actionType)) ==> r == Fail(UnknownCategory(ToUpper(actionType)))
    ensures Selects(mapping, ToUpper(actionType)) ==>
              (r == Pass <==> ContainsInstance(Compile(mapping[ToUpper(actionType)]), cleanedTitle))
    ensures Selects(mapping, ToUpper(actionType)) && r != Pass ==>
              r == Fail(FormatMismatch(ToUpper(actionType), cleanedTitle, mapping[ToUpper(actionType)]))
  {
    var category := ToUpper(actionType);
    if category in mapping && mapping[category] != "" then
      var expectedFormat := mapping[category];
      if Test(Compile(expectedFormat), cleanedTitle) then Pass
      else Fail(FormatMismatch(category, cleanedTitle, expectedFormat))
    else Fail(UnknownCategory(category))
  }

  /** A category mapped to the empty string is refused as if it had no entry,
      whatever the title, although the empty template would match any title. */
  lemma EmptyTemplateRefused(mapping: map<string, string>, actionType: string, cleanedTitle: string)
    requires ToUpper(actionType) in mapping && mapping[ToUpper(actionType)] == ""
    ensures ContainsInstance(Compile(mapping[ToUpper(actionType)]), cleanedTitle)
    ensures VerifyTitleCorrespondsToType(mapping, actionType, cleanedTitle)
            == Fail(UnknownCategory(ToUpper(actionType)))
  {
    assert Compile("") == [];
    assert Test([], cleanedTitle);
  }

  /** Against the suite's registry the truthiness test is membership. */
  lemma RegistrySelectsKeys(category: string)
    ensures Selects(TransactionMapping, category) <==> category in TransactionMapping
  {
    if category in TransactionMapping {
      TemplatesNonEmpty(category);
    }
  }

  /** Against the suite's registry, any casing of a category name selects the same
      template. */
  lemma CategoryCasingIrrelevant(actionType: string, key: string, cleanedTitle: string)
    requires key in TransactionMapping && CasingOf(actionType, key)
    ensures VerifyTitleCorrespondsToType(TransactionMapping, actionType, cleanedTitle) == Pass <==>
            ContainsInstance(Compile(TransactionMapping[key]), cleanedTitle)
    ensures VerifyTitleCorrespondsToType(TransactionMapping, actionType, cleanedTitle) != Pass ==>
            VerifyTitleCorrespondsToType(TransactionMapping, actionType, cleanedTitle)
              == Fail(FormatMismatch(key, cleanedTitle, TransactionMapping[key]))
  {
    AnyCasingFindsKey(actionType, key);
    TemplatesNonEmpty(key);
  }

  /** Matching is unanchored: text around an accepted title keeps it accepted. */
  lemma AcceptedWithSurroundingText(mapping: map<string, string>, actionType: string, title: string,
                                    before: string, after: string)
    requires VerifyTitleCorrespondsToType(mapping, actionType, title) == Pass
    ensures VerifyTitleCorrespondsToType(mapping, actionType, before + title + after) == Pass
  {
    Unanchored(Compile(mapping[ToUpper(actionType)]), title, before, after);
  }

  lemma AllUpper()
    ensures ToUpper("All") == "ALL"
  {
    ToUpperPointwise("All", "ALL");
  }

  /** "All" (the filter's catch-all option) has no mapping. */
  lemma AllIsUnknown(cleanedTitle: string)
    ensures VerifyTitleCorrespondsToType(TransactionMapping, "All", cleanedTitle) == Fail(UnknownCategory("ALL"))
  {
    AllUpper();
    AllNotKey();
  }

  lemma AllNotKey()
    ensures "ALL" !in TransactionMapping
  {
    RegistryKeys();
  }

  lemma PaymentUpper()
    ensures ToUpper("Payment") == "PAYMENT"
  {
    ToUpperPointwise("Payment", "PAYMENT");
  }

  lemma PaymentUpperFixed()
    ensures ToUpper("PAYMENT") == "PAYMENT"
  {
    ToUpperPointwise("PAYMENT", "PAYMENT");
  }

  lemma PaymentCategory()
    ensures ToUpper("Payment") == "PAYMENT" && ToUpper("PAYMENT") == "PAYMENT"
    ensures Selects(TransactionMapping, "PAYMENT")
  {
    PaymentUpper();
    PaymentUpperFixed();
    PaymentTemplate();
    TemplatesNonEmpty("PAYMENT");
  }

  /** `Pay <user> <amount> <symbol>` accepts "Pay alice 10 GOLD" and rejects
      "Pay alice", whose single space cannot host the template's three. */
  lemma PaymentExamples()
    ensures VerifyTitleCorrespondsToType(TransactionMapping, "Payment", "Pay alice 10 GOLD") == Pass
    ensures VerifyTitleCorrespondsToType(TransactionMapping, "PAYMENT", "Pay alice")
              == Fail(FormatMismatch("PAYMENT", "Pay alice", TransactionMapping["PAYMENT"]))
  {
    PaymentCategory();
    PaymentAccepts();
    PaymentRejects();
  }

  lemma TransferCategory()
    ensures ToUpper("TRANSFER") == "TRANSFER" && Selects(TransactionMapping, "TRANSFER")
  {
    ToUpperPointwise("TRANSFER", "TRANSFER");
    TransferTemplate();
    TemplatesNonEmpty("TRANSFER");
  }

  /** TRANSFER names `<team>` twice, yet each occurrence is its own wildcard: a
      transfer between two different teams is accepted. */
  lemma TransferTeamsIndependent()
    ensures TransferShape[5] == Placeholder("team") && TransferShape[7] == Placeholder("team")
    ensures PlaceholderCount(TransferShape) == 4
    ensures VerifyTitleCorrespondsToType(TransactionMapping, "TRANSFER", "Move 5 GOLD from Root to Dev") == Pass
  {
    TransferCategory();
    TransferInstance();
    TransferAccepts();
  }

  /** `verifyTypeFilter`: every trimmed type-label text must match the template of
      the expected type; the items are checked in order and the first failure is
      the one reported. An expected type without a template fails on the first
      item, so it passes only an empty list. */
  method VerifyTypeFilter(mapping: map<string, string>, expectedType: string, texts: seq<string>)
    returns (r: Outcome)
    ensures r == Pass <==>
            forall i :: 0 <= i < |texts| ==> VerifyTitleCorrespondsToType(mapping, expectedType, Trim(texts[i])) == Pass
    ensures r != Pass ==>
            exists k :: 0 <= k < |texts|
                        && (forall j :: 0 <= j < k ==> VerifyTitleCorrespondsToType(mapping, expectedType, Trim(texts[j])) == Pass)
                        && r == VerifyTitleCorrespondsToType(mapping, expectedType, Trim(texts[k]))
    ensures !Selects(mapping, ToUpper(expectedType)) ==> (r == Pass <==> |texts| == 0)
  {
    var i := 0;
    while i < |texts|
      invariant 0 <= i <= |texts|
      invariant forall j :: 0 <= j < i ==> VerifyTitleCorrespondsToType(mapping, expectedType, Trim(texts[j])) == Pass
    {
      var cleanedTitle := Trim(texts[i]);
      var verdict := VerifyTitleCorrespondsToType(mapping, expectedType, cleanedTitle);
      if verdict != Pass {
        assert 0 <= i < |texts| && verdict == VerifyTitleCorrespondsToType(mapping, expectedType, Trim(texts[i]));
        return verdict;
      }
      i := i + 1;
    }
    if |texts| > 0 {
      assert VerifyTitleCorrespondsToType(mapping, expectedType, Trim(texts[0])) == Pass;
    }
    return Pass;
  }
}
