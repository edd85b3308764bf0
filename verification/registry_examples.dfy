/** Concrete titles checked against the suite's templates. */
module RegistryExamples {
  import opened Text
  import opened Matcher
  import opened Registry

  lemma PaymentInstance()
    ensures PlaceholderCount(PaymentShape) == 3
    ensures Instantiate(PaymentShape, ["alice", "10", "GOLD"]) == "Pay alice 10 GOLD"
  {
    PaymentSplit();
    var a1 := [Literal("Pay ")];
    var a2 := a1 + [Placeholder("user")];
    var a3 := a2 + [Literal(" ")];
    var a4 := a3 + [Placeholder("amount")];
    var a5 := a4 + [Literal(" ")];
    InstantiateOneLiteral("Pay ");
    InstantiateSnocPlaceholder(a1, [], "user", "alice");
    InstantiateSnocLiteral(a2, [] + ["alice"], " ");
    InstantiateSnocPlaceholder(a3, [] + ["alice"], "amount", "10");
    InstantiateSnocLiteral(a4, [] + ["alice"] + ["10"], " ");
    InstantiateSnocPlaceholder(a5, [] + ["alice"] + ["10"], "symbol", "GOLD");
    assert [] + ["alice"] + ["10"] + ["GOLD"] == ["alice", "10", "GOLD"];
    assert "Pay " + "alice" + " " + "10" + " " + "GOLD" == "Pay alice 10 GOLD";
  }

  lemma PaymentValuesLineFree()
    ensures FillsOk(["alice", "10", "GOLD"])
  {
  }

  lemma PaymentLiteralText()
    ensures LiteralText(PaymentShape) == "Pay   "
  {
  }

  lemma PaymentLiteralSpaces()
    ensures CountFold("Pay   ", ' ') == 3
  {
  }

  lemma ShortTitleSpaces()
    ensures CountFold("Pay alice", ' ') == 1
  {
  }

  lemma PaymentAccepts()
    ensures Test(Compile(TransactionMapping["PAYMENT"]), "Pay alice 10 GOLD")
  {
    PaymentDescribed();
    PaymentInstance();
    PaymentValuesLineFree();
    ShapeAccepts(PaymentShape, ["alice", "10", "GOLD"]);
  }

  lemma PaymentRejects()
    ensures !Test(Compile(TransactionMapping["PAYMENT"]), "Pay alice")
  {
    PaymentDescribed();
    PaymentLiteralText();
    PaymentLiteralSpaces();
    ShortTitleSpaces();
    ShapeRejects(PaymentShape, "Pay alice", ' ');
  }

  lemma TransferInstance()
    ensures PlaceholderCount(TransferShape) == 4
    ensures Instantiate(TransferShape, ["5", "GOLD", "Root", "Dev"]) == "Move 5 GOLD from Root to Dev"
  {
    TransferSplit();
    var a1 := [Literal("Move ")];
    var a2 := a1 + [Placeholder("amount")];
    var a3 := a2 + [Literal(" ")];
    var a4 := a3 + [Placeholder("symbol")];
    var a5 := a4 + [Literal(" from ")];
    var a6 := a5 + [Placeholder("team")];
    var a7 := a6 + [Literal(" to ")];
    InstantiateOneLiteral("Move ");
    InstantiateSnocPlaceholder(a1, [], "amount", "5");
    InstantiateSnocLiteral(a2, [] + ["5"], " ");
    InstantiateSnocPlaceholder(a3, [] + ["5"], "symbol", "GOLD");
    InstantiateSnocLiteral(a4, [] + ["5"] + ["GOLD"], " from ");
    InstantiateSnocPlaceholder(a5, [] + ["5"] + ["GOLD"], "team", "Root");
    InstantiateSnocLiteral(a6, [] + ["5"] + ["GOLD"] + ["Root"], " to ");
    InstantiateSnocPlaceholder(a7, [] + ["5"] + ["GOLD"] + ["Root"], "team", "Dev");
    assert [] + ["5"] + ["GOLD"] + ["Root"] + ["Dev"] == ["5", "GOLD", "Root", "Dev"];
    TransferTitle();
  }

  lemma TransferTitle()
    ensures "Move " + "5" + " " + "GOLD" + " from " + "Root" + " to " + "Dev" == "Move 5 GOLD from Root to Dev"
  {
  }

  lemma TransferValuesLineFree()
    ensures FillsOk(["5", "GOLD", "Root", "Dev"])
  {
  }

  lemma TransferAccepts()
    ensures Test(Compile(TransactionMapping["TRANSFER"]), "Move 5 GOLD from Root to Dev")
  {
    TransferDescribed();
    TransferInstance();
    TransferValuesLineFree();
    ShapeAccepts(TransferShape, ["5", "GOLD", "Root", "Dev"]);
  }
}
