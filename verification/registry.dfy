/** The category registry of `tests/data/transactionMapping.js`: one title template per
    upper-case category name, with the structure of each template made explicit. */
module Registry {
  import opened Text
  import opened Matcher

  /** The exported mapping object, verbatim. */
  const TransactionMapping: map<string, string> := map[
    "MINT" := "Mint <amount> <symbol>",
    "PAYMENT" := "Pay <user> <amount> <symbol>",
    "TRANSFER" := "Move <amount> <symbol> from <team> to <team>",
    "REPUTATION" := "Awarded <user> with a <amount> points reputation award",
    "PERMISSIONS" := "Assign the <comma-separated-roles> permissions in <team> to <user>",
    "UPGRADE" := "Upgrade to version <version>",
    "DETAILS" := "Details changed",
    "ADDRESS" := "Address book was updated",
    "TEAM" := "New team: <team>",
    "GENERIC" := "Generic Action"
  ]

  // Each template read as literal text and named placeholders.

  const MintShape: seq<Piece> :=
    [Literal("Mint "), Placeholder("amount"), Literal(" "), Placeholder("symbol")]
  const PaymentShape: seq<Piece> :=
    [Literal("Pay "), Placeholder("user"), Literal(" "), Placeholder("amount"), Literal(" "),
     Placeholder("symbol")]
  const TransferShape: seq<Piece> :=
    [Literal("Move "), Placeholder("amount"), Literal(" "), Placeholder("symbol"), Literal(" from "),
     Placeholder("team"), Literal(" to "), Placeholder("team")]
  const ReputationShape: seq<Piece> :=
    [Literal("Awarded "), Placeholder("user"), Literal(" with a "), Placeholder("amount"),
     Literal(" points reputation award")]
  const PermissionsShape: seq<Piece> :=
    [Literal("Assign the "), Placeholder("comma-separated-roles"), Literal(" permissions in "),
     Placeholder("team"), Literal(" to "), Placeholder("user")]
  const UpgradeShape: seq<Piece> := [Literal("Upgrade to version "), Placeholder("version")]
  const DetailsShape: seq<Piece> := [Literal("Details changed")]
  const AddressShape: seq<Piece> := [Literal("Address book was updated")]
  const TeamShape: seq<Piece> := [Literal("New team: "), Placeholder("team")]
  const GenericShape: seq<Piece> := [Literal("Generic Action")]

  /** The structured reading of each registry key (empty for anything else). */
  function ShapeOf(key: string): seq<Piece> {
    if key == "MINT" then MintShape
    else if key == "PAYMENT" then PaymentShape
    else if key == "TRANSFER" then TransferShape
    else if key == "REPUTATION" then ReputationShape
    else if key == "PERMISSIONS" then PermissionsShape
    else if key == "UPGRADE" then UpgradeShape
    else if key == "DETAILS" then DetailsShape
    else if key == "ADDRESS" then AddressShape
    else if key == "TEAM" then TeamShape
    else if key == "GENERIC" then GenericShape
    else []
  }

  /** Characters with a meaning of their own in a JavaScript regular expression. */
  predicate IsRegexMeta(c: char) {
    c in "^$\\.*+?()[]{}|"
  }

  predicate MetaFreePiece(piece: Piece) {
    match piece
    case Literal(s) => forall k :: 0 <= k < |s| ==> !IsRegexMeta(s[k])
    case Placeholder(_) => true
  }

  /** The literal characters of a compiled pattern are all taken verbatim by the
      regular expression, so the unescaped replace builds exactly that pattern. */
  predicate LiteralsMetaFree(p: Pattern) {
    forall i :: 0 <= i < |p| && p[i].Lit? ==> !IsRegexMeta(p[i].c)
  }

  /** The ten categories. */
  lemma RegistryKeys()
    ensures TransactionMapping.Keys == {"MINT", "PAYMENT", "TRANSFER", "REPUTATION", "PERMISSIONS",
                                        "UPGRADE", "DETAILS", "ADDRESS", "TEAM", "GENERIC"}
  {
  }

  /** Every key is written in upper-case ASCII letters only. */
  lemma KeysUpperCase()
    ensures forall key :: key in TransactionMapping ==>
              forall i :: 0 <= i < |key| ==> 'A' <= key[i] <= 'Z'
  {
    RegistryKeys();
  }

  /** `shape` is a faithful reading of `template`: written out it is the template,
      its placeholders are well formed, and no literal text holds a
      regular-expression metacharacter. */
  predicate Describes(shape: seq<Piece>, template: string) {
    && Render(shape) == template
    && WellFormed(shape)
    && forall i :: 0 <= i < |shape| ==> MetaFreePiece(shape[i])
  }

  /** The only characters the registry's literal text and placeholder names use. */
  predicate PlainChar(c: char) {
    'a' <= c <= 'z' || 'A' <= c <= 'Z' || c == ' ' || c == ':' || c == '-'
  }

  predicate PlainText(s: string) {
    forall c | c in s :: PlainChar(c)
  }

  predicate PlainPiece(piece: Piece) {
    match piece
    case Literal(s) => PlainText(s)
    case Placeholder(n) => PlainText(n)
  }

  /** Every piece of `shape` uses plain characters only. */
  predicate Plain(shape: seq<Piece>) {
    forall i :: 0 <= i < |shape| ==> PlainPiece(shape[i])
  }

  lemma PlainCharNotMeta(c: char)
    requires PlainChar(c)
    ensures !IsRegexMeta(c) && !IsLineTerminator(c) && c != '<' && c != '>'
  {
  }

  lemma PlainTextAppend(a: string, b: string)
    requires PlainText(a) && PlainText(b)
    ensures PlainText(a + b)
  {
  }

  lemma PlainTextNoOpen(s: string)
    requires PlainText(s)
    ensures '<' !in s
  {
    if '<' in s {
      PlainCharNotMeta('<');
    }
  }

  /** A plain piece is well formed and free of metacharacters. */
  lemma PlainPieceClean(piece: Piece)
    requires PlainPiece(piece)
    ensures WellFormedPiece(piece) && MetaFreePiece(piece)
  {
    var s := match piece case Literal(t) => t case Placeholder(n) => n;
    forall k | 0 <= k < |s|
      ensures !IsRegexMeta(s[k]) && !IsLineTerminator(s[k]) && s[k] != '<' && s[k] != '>'
    {
      assert s[k] in s;
      PlainCharNotMeta(s[k]);
    }
  }

  /** Plain pieces are well formed and free of metacharacters. */
  lemma PlainIsClean(shape: seq<Piece>)
    requires Plain(shape)
    ensures WellFormed(shape)
    ensures forall i :: 0 <= i < |shape| ==> MetaFreePiece(shape[i])
  {
    forall i | 0 <= i < |shape| ensures WellFormedPiece(shape[i]) && MetaFreePiece(shape[i]) {
      PlainPieceClean(shape[i]);
    }
  }

  // ---------------------------------------------------------------------------
  // Building a template piece by piece: each structured template below is taken
  // apart into single pieces, so that writing it out, filling it and checking its
  // characters go one piece at a time.

  lemma {:induction false} RenderAppend(a: seq<Piece>, b: seq<Piece>)
    ensures Render(a + b) == Render(a) + Render(b)
    decreases |a|
  {
    if a == [] {
      assert a + b == b;
    } else {
      assert (a + b)[0] == a[0];
      assert (a + b)[1..] == a[1..] + b;
      RenderAppend(a[1..], b);
      ConcatAssoc(RenderPiece(a[0]), Render(a[1..]), Render(b));
    }
  }

  lemma RenderOne(piece: Piece)
    ensures Render([piece]) == RenderPiece(piece)
  {
    assert [piece][1..] == [];
  }

  lemma RenderSnoc(a: seq<Piece>, piece: Piece)
    ensures Render(a + [piece]) == Render(a) + RenderPiece(piece)
  {
    RenderAppend(a, [piece]);
    RenderOne(piece);
  }

  lemma PlainSnoc(a: seq<Piece>, piece: Piece)
    requires Plain(a) && PlainPiece(piece)
    ensures Plain(a + [piece])
  {
    forall i | 0 <= i < |a + [piece]| ensures PlainPiece((a + [piece])[i]) {
      if i < |a| {
        assert (a + [piece])[i] == a[i];
      }
    }
  }

  lemma PlainOne(piece: Piece)
    requires PlainPiece(piece)
    ensures Plain([piece])
  {
  }

  lemma InstantiateOneLiteral(text: string)
    ensures PlaceholderCount([Literal(text)]) == 0
    ensures Instantiate([Literal(text)], []) == text
  {
    assert [Literal(text)][1..] == [];
  }

  lemma InstantiateSnocLiteral(a: seq<Piece>, values: seq<string>, text: string)
    requires |values| == PlaceholderCount(a)
    ensures PlaceholderCount(a + [Literal(text)]) == |values|
    ensures Instantiate(a + [Literal(text)], values) == Instantiate(a, values) + text
  {
    InstantiateOneLiteral(text);
    InstantiateAppend(a, [Literal(text)], values, []);
    assert values + [] == values;
  }

  lemma InstantiateSnocPlaceholder(a: seq<Piece>, values: seq<string>, name: string, v: string)
    requires |values| == PlaceholderCount(a)
    ensures PlaceholderCount(a + [Placeholder(name)]) == |values + [v]|
    ensures Instantiate(a + [Placeholder(name)], values + [v]) == Instantiate(a, values) + v
  {
    var one := [Placeholder(name)];
    assert one[0] == Placeholder(name) && one[1..] == [];
    assert [v][1..] == [];
    InstantiateAppend(a, one, values, [v]);
  }

  // ---------------------------------------------------------------------------
  // The ten templates, one by one
  //
  // Each lemma below states one fact about one piece of one template. Proofs
  // about concrete strings grow quickly with the string's length, so keeping one
  // piece per lemma keeps every proof small; the per-template lemmas then
  // combine them.

  // Each piece of the registry uses plain characters only.
  lemma TextMintPlain() ensures PlainPiece(Literal("Mint ")) {
  }

  lemma NameAmountPlain() ensures PlainPiece(Placeholder("amount")) {
  }

  lemma TextSpacePlain() ensures PlainPiece(Literal(" ")) {
  }

  lemma NameSymbolPlain() ensures PlainPiece(Placeholder("symbol")) {
  }

  lemma TextPayPlain() ensures PlainPiece(Literal("Pay ")) {
  }

  lemma NameUserPlain() ensures PlainPiece(Placeholder("user")) {
  }

  lemma TextMovePlain() ensures PlainPiece(Literal("Move ")) {
  }

  lemma TextFromPlain() ensures PlainPiece(Literal(" from ")) {
  }

  lemma NameTeamPlain() ensures PlainPiece(Placeholder("team")) {
  }

  lemma TextToPlain() ensures PlainPiece(Literal(" to ")) {
  }

  lemma TextAwardedPlain() ensures PlainPiece(Literal("Awarded ")) {
  }

  lemma TextWithAPlain() ensures PlainPiece(Literal(" with a ")) {
  }

  lemma TextPointsReputationAwardPlain() ensures PlainPiece(Literal(" points reputation award")) {
    assert " points reputation award" == " points" + " reputation" + " award";
    PlainTextAppend(" points", " reputation");
    PlainTextAppend(" points" + " reputation", " award");
  }

  lemma TextAssignThePlain() ensures PlainPiece(Literal("Assign the ")) {
  }

  lemma NameCommaSeparatedRolesPlain() ensures PlainPiece(Placeholder("comma-separated-roles")) {
    assert "comma-separated-roles" == "comma-separated" + "-roles";
    PlainTextAppend("comma-separated", "-roles");
  }

  lemma TextPermissionsInPlain() ensures PlainPiece(Literal(" permissions in ")) {
    assert " permissions in " == " permissions" + " in ";
    PlainTextAppend(" permissions", " in ");
  }

  lemma TextUpgradeToVersionPlain() ensures PlainPiece(Literal("Upgrade to version ")) {
    assert "Upgrade to version " == "Upgrade to " + "version ";
    PlainTextAppend("Upgrade to ", "version ");
  }

  lemma NameVersionPlain() ensures PlainPiece(Placeholder("version")) {
  }

  lemma TextDetailsChangedPlain() ensures PlainPiece(Literal("Details changed")) {
    assert "Details changed" == "Details" + " changed";
    PlainTextAppend("Details", " changed");
  }

  lemma TextAddressBookWasUpdatedPlain() ensures PlainPiece(Literal("Address book was updated")) {
    assert "Address book was updated" == "Address book" + " was updated";
    PlainTextAppend("Address book", " was updated");
  }

  lemma TextNewTeamPlain() ensures PlainPiece(Literal("New team: ")) {
  }

  lemma TextGenericActionPlain() ensures PlainPiece(Literal("Generic Action")) {
    assert "Generic Action" == "Generic" + " Action";
    PlainTextAppend("Generic", " Action");
  }

  lemma MintTemplate() ensures "MINT" in TransactionMapping && TransactionMapping["MINT"] == "Mint <amount> <symbol>" {
  }

  lemma MintSplit()
    ensures MintShape == [Literal("Mint ")] + [Placeholder("amount")] + [Literal(" ")] + [Placeholder("symbol")]
  {
  }

  lemma MintText()
    ensures "Mint " + ("<" + "amount" + ">") + " " + ("<" + "symbol" + ">") == "Mint <amount> <symbol>"
  {
  }

  lemma MintRendered() ensures Render(MintShape) == TransactionMapping["MINT"] {
    MintTemplate();
    MintSplit();
    RenderOne(Literal("Mint "));
    RenderSnoc([Literal("Mint ")], Placeholder("amount"));
    RenderSnoc([Literal("Mint ")] + [Placeholder("amount")], Literal(" "));
    RenderSnoc([Literal("Mint ")] + [Placeholder("amount")] + [Literal(" ")], Placeholder("symbol"));
    MintText();
  }

  lemma MintPlain() ensures Plain(MintShape) {
    TextMintPlain();
    NameAmountPlain();
    TextSpacePlain();
    NameSymbolPlain();
    MintSplit();
    PlainOne(Literal("Mint "));
    PlainSnoc([Literal("Mint ")], Placeholder("amount"));
    PlainSnoc([Literal("Mint ")] + [Placeholder("amount")], Literal(" "));
    PlainSnoc([Literal("Mint ")] + [Placeholder("amount")] + [Literal(" ")], Placeholder("symbol"));
  }

  lemma MintDescribed() ensures Describes(MintShape, TransactionMapping["MINT"]) {
    MintRendered();
    MintPlain();
    PlainIsClean(MintShape);
  }

  lemma PaymentTemplate() ensures "PAYMENT" in TransactionMapping && TransactionMapping["PAYMENT"] == "Pay <user> <amount> <symbol>" {
  }

  lemma PaymentSplit()
    ensures PaymentShape == [Literal("Pay ")] + [Placeholder("user")] + [Literal(" ")] + [Placeholder("amount")]
                            + [Literal(" ")] + [Placeholder("symbol")]
  {
  }

  lemma PaymentText()
    ensures "Pay " + ("<" + "user" + ">") + " " + ("<" + "amount" + ">") + " " + ("<" + "symbol" + ">")
            == "Pay <user> <amount> <symbol>"
  {
  }

  lemma PaymentRendered() ensures Render(PaymentShape) == TransactionMapping["PAYMENT"] {
    PaymentTemplate();
    PaymentSplit();
    var a1 := [Literal("Pay ")];
    var a2 := a1 + [Placeholder("user")];
    var a3 := a2 + [Literal(" ")];
    var a4 := a3 + [Placeholder("amount")];
    var a5 := a4 + [Literal(" ")];
    RenderOne(Literal("Pay "));
    RenderSnoc(a1, Placeholder("user"));
    RenderSnoc(a2, Literal(" "));
    RenderSnoc(a3, Placeholder("amount"));
    RenderSnoc(a4, Literal(" "));
    RenderSnoc(a5, Placeholder("symbol"));
    PaymentText();
  }

  lemma PaymentPlain() ensures Plain(PaymentShape) {
    TextPayPlain();
    NameUserPlain();
    TextSpacePlain();
    NameAmountPlain();
    NameSymbolPlain();
    PaymentSplit();
    var a1 := [Literal("Pay ")];
    var a2 := a1 + [Placeholder("user")];
    var a3 := a2 + [Literal(" ")];
    var a4 := a3 + [Placeholder("amount")];
    var a5 := a4 + [Literal(" ")];
    PlainOne(Literal("Pay "));
    PlainSnoc(a1, Placeholder("user"));
    PlainSnoc(a2, Literal(" "));
    PlainSnoc(a3, Placeholder("amount"));
    PlainSnoc(a4, Literal(" "));
    PlainSnoc(a5, Placeholder("symbol"));
  }

  lemma PaymentDescribed() ensures Describes(PaymentShape, TransactionMapping["PAYMENT"]) {
    PaymentRendered();
    PaymentPlain();
    PlainIsClean(PaymentShape);
  }

  lemma TransferTemplate() ensures "TRANSFER" in TransactionMapping && TransactionMapping["TRANSFER"] == "Move <amount> <symbol> from <team> to <team>" {
  }

  lemma TransferSplit()
    ensures TransferShape == [Literal("Move ")] + [Placeholder("amount")] + [Literal(" ")] + [Placeholder("symbol")]
                             + [Literal(" from ")] + [Placeholder("team")] + [Literal(" to ")] + [Placeholder("team")]
  {
  }

  lemma TransferTextLeft()
    ensures "Move " + ("<" + "amount" + ">") + " " + ("<" + "symbol" + ">") == "Move <amount> <symbol>"
  {
  }

  lemma TransferTextRight()
    ensures "Move <amount> <symbol>" + " from " + ("<" + "team" + ">") + " to " + ("<" + "team" + ">")
            == "Move <amount> <symbol> from <team> to <team>"
  {
  }

  lemma TransferRendered() ensures Render(TransferShape) == TransactionMapping["TRANSFER"] {
    TransferTemplate();
    TransferSplit();
    var a1 := [Literal("Move ")];
    var a2 := a1 + [Placeholder("amount")];
    var a3 := a2 + [Literal(" ")];
    var a4 := a3 + [Placeholder("symbol")];
    var a5 := a4 + [Literal(" from ")];
    var a6 := a5 + [Placeholder("team")];
    var a7 := a6 + [Literal(" to ")];
    RenderOne(Literal("Move "));
    RenderSnoc(a1, Placeholder("amount"));
    RenderSnoc(a2, Literal(" "));
    RenderSnoc(a3, Placeholder("symbol"));
    TransferTextLeft();
    RenderSnoc(a4, Literal(" from "));
    RenderSnoc(a5, Placeholder("team"));
    RenderSnoc(a6, Literal(" to "));
    RenderSnoc(a7, Placeholder("team"));
    TransferTextRight();
  }

  lemma TransferPlain() ensures Plain(TransferShape) {
    TextMovePlain();
    NameAmountPlain();
    TextSpacePlain();
    NameSymbolPlain();
    TextFromPlain();
    NameTeamPlain();
    TextToPlain();
    TransferSplit();
    var a1 := [Literal("Move ")];
    var a2 := a1 + [Placeholder("amount")];
    var a3 := a2 + [Literal(" ")];
    var a4 := a3 + [Placeholder("symbol")];
    var a5 := a4 + [Literal(" from ")];
    var a6 := a5 + [Placeholder("team")];
    var a7 := a6 + [Literal(" to ")];
    PlainOne(Literal("Move "));
    PlainSnoc(a1, Placeholder("amount"));
    PlainSnoc(a2, Literal(" "));
    PlainSnoc(a3, Placeholder("symbol"));
    PlainSnoc(a4, Literal(" from "));
    PlainSnoc(a5, Placeholder("team"));
    PlainSnoc(a6, Literal(" to "));
    PlainSnoc(a7, Placeholder("team"));
  }

  lemma TransferDescribed() ensures Describes(TransferShape, TransactionMapping["TRANSFER"]) {
    TransferRendered();
    TransferPlain();
    PlainIsClean(TransferShape);
  }

  lemma ReputationTemplate()
    ensures "REPUTATION" in TransactionMapping && TransactionMapping["REPUTATION"] == "Awarded <user> with a <amount> points reputation award"
  {
  }

  lemma ReputationSplit()
    ensures ReputationShape == [Literal("Awarded ")] + [Placeholder("user")] + [Literal(" with a ")]
                               + [Placeholder("amount")] + [Literal(" points reputation award")]
  {
  }

  lemma ReputationTextLeft()
    ensures "Awarded " + ("<" + "user" + ">") + " with a " == "Awarded <user> with a "
  {
  }

  lemma ReputationTextRight()
    ensures "Awarded <user> with a " + ("<" + "amount" + ">") + " points reputation award"
            == "Awarded <user> with a <amount> points reputation award"
  {
  }

  lemma ReputationRendered() ensures Render(ReputationShape) == TransactionMapping["REPUTATION"] {
    ReputationTemplate();
    ReputationSplit();
    var a1 := [Literal("Awarded ")];
    var a2 := a1 + [Placeholder("user")];
    var a3 := a2 + [Literal(" with a ")];
    var a4 := a3 + [Placeholder("amount")];
    RenderOne(Literal("Awarded "));
    RenderSnoc(a1, Placeholder("user"));
    RenderSnoc(a2, Literal(" with a "));
    ReputationTextLeft();
    RenderSnoc(a3, Placeholder("amount"));
    RenderSnoc(a4, Literal(" points reputation award"));
    ReputationTextRight();
  }

  lemma ReputationPlain() ensures Plain(ReputationShape) {
    TextAwardedPlain();
    NameUserPlain();
    TextWithAPlain();
    NameAmountPlain();
    TextPointsReputationAwardPlain();
    ReputationSplit();
    var a1 := [Literal("Awarded ")];
    var a2 := a1 + [Placeholder("user")];
    var a3 := a2 + [Literal(" with a ")];
    var a4 := a3 + [Placeholder("amount")];
    PlainOne(Literal("Awarded "));
    PlainSnoc(a1, Placeholder("user"));
    PlainSnoc(a2, Literal(" with a "));
    PlainSnoc(a3, Placeholder("amount"));
    PlainSnoc(a4, Literal(" points reputation award"));
  }

  lemma ReputationDescribed() ensures Describes(ReputationShape, TransactionMapping["REPUTATION"]) {
    ReputationRendered();
    ReputationPlain();
    PlainIsClean(ReputationShape);
  }

  lemma PermissionsTemplate()
    ensures "PERMISSIONS" in TransactionMapping && TransactionMapping["PERMISSIONS"] == "Assign the <comma-separated-roles> permissions in <team> to <user>"
  {
  }

  lemma PermissionsSplit()
    ensures PermissionsShape == [Literal("Assign the ")] + [Placeholder("comma-separated-roles")]
                                + [Literal(" permissions in ")] + [Placeholder("team")] + [Literal(" to ")]
                                + [Placeholder("user")]
  {
  }

  lemma PermissionsTextLeft()
    ensures "Assign the " + ("<" + "comma-separated-roles" + ">") == "Assign the <comma-separated-roles>"
  {
  }

  lemma PermissionsTextMiddle()
    ensures "Assign the <comma-separated-roles>" + " permissions in " + ("<" + "team" + ">")
            == "Assign the <comma-separated-roles> permissions in <team>"
  {
  }

  lemma PermissionsTextRight()
    ensures "Assign the <comma-separated-roles> permissions in <team>" + " to " + ("<" + "user" + ">")
            == "Assign the <comma-separated-roles> permissions in <team> to <user>"
  {
  }

  lemma PermissionsRendered() ensures Render(PermissionsShape) == TransactionMapping["PERMISSIONS"] {
    PermissionsTemplate();
    PermissionsSplit();
    var a1 := [Literal("Assign the ")];
    var a2 := a1 + [Placeholder("comma-separated-roles")];
    var a3 := a2 + [Literal(" permissions in ")];
    var a4 := a3 + [Placeholder("team")];
    var a5 := a4 + [Literal(" to ")];
    RenderOne(Literal("Assign the "));
    RenderSnoc(a1, Placeholder("comma-separated-roles"));
    PermissionsTextLeft();
    RenderSnoc(a2, Literal(" permissions in "));
    RenderSnoc(a3, Placeholder("team"));
    PermissionsTextMiddle();
    RenderSnoc(a4, Literal(" to "));
    RenderSnoc(a5, Placeholder("user"));
    PermissionsTextRight();
  }

  lemma PermissionsPlain() ensures Plain(PermissionsShape) {
    TextAssignThePlain();
    NameCommaSeparatedRolesPlain();
    TextPermissionsInPlain();
    NameTeamPlain();
    TextToPlain();
    NameUserPlain();
    PermissionsSplit();
    var a1 := [Literal("Assign the ")];
    var a2 := a1 + [Placeholder("comma-separated-roles")];
    var a3 := a2 + [Literal(" permissions in ")];
    var a4 := a3 + [Placeholder("team")];
    var a5 := a4 + [Literal(" to ")];
    PlainOne(Literal("Assign the "));
    PlainSnoc(a1, Placeholder("comma-separated-roles"));
    PlainSnoc(a2, Literal(" permissions in "));
    PlainSnoc(a3, Placeholder("team"));
    PlainSnoc(a4, Literal(" to "));
    PlainSnoc(a5, Placeholder("user"));
  }

  lemma PermissionsDescribed() ensures Describes(PermissionsShape, TransactionMapping["PERMISSIONS"]) {
    PermissionsRendered();
    PermissionsPlain();
    PlainIsClean(PermissionsShape);
  }

  lemma UpgradeTemplate() ensures "UPGRADE" in TransactionMapping && TransactionMapping["UPGRADE"] == "Upgrade to version <version>" {
  }

  lemma UpgradeRendered() ensures Render(UpgradeShape) == TransactionMapping["UPGRADE"] {
    UpgradeTemplate();
    assert UpgradeShape == [Literal("Upgrade to version ")] + [Placeholder("version")];
    RenderOne(Literal("Upgrade to version "));
    RenderSnoc([Literal("Upgrade to version ")], Placeholder("version"));
    assert "Upgrade to version " + ("<" + "version" + ">") == "Upgrade to version <version>";
  }

  lemma UpgradePlain() ensures Plain(UpgradeShape) {
    TextUpgradeToVersionPlain();
    NameVersionPlain();
    assert UpgradeShape == [Literal("Upgrade to version ")] + [Placeholder("version")];
    PlainOne(Literal("Upgrade to version "));
    PlainSnoc([Literal("Upgrade to version ")], Placeholder("version"));
  }

  lemma UpgradeDescribed() ensures Describes(UpgradeShape, TransactionMapping["UPGRADE"]) {
    UpgradeRendered();
    UpgradePlain();
    PlainIsClean(UpgradeShape);
  }

  lemma DetailsTemplate() ensures "DETAILS" in TransactionMapping && TransactionMapping["DETAILS"] == "Details changed" {
  }

  lemma DetailsDescribed() ensures Describes(DetailsShape, TransactionMapping["DETAILS"]) {
    TextDetailsChangedPlain();
    DetailsTemplate();
    RenderOne(Literal("Details changed"));
    PlainOne(Literal("Details changed"));
    PlainIsClean(DetailsShape);
  }

  lemma AddressTemplate() ensures "ADDRESS" in TransactionMapping && TransactionMapping["ADDRESS"] == "Address book was updated" {
  }

  lemma AddressDescribed() ensures Describes(AddressShape, TransactionMapping["ADDRESS"]) {
    TextAddressBookWasUpdatedPlain();
    AddressTemplate();
    RenderOne(Literal("Address book was updated"));
    PlainOne(Literal("Address book was updated"));
    PlainIsClean(AddressShape);
  }

  lemma TeamTemplate() ensures "TEAM" in TransactionMapping && TransactionMapping["TEAM"] == "New team: <team>" {
  }

  lemma TeamDescribed() ensures Describes(TeamShape, TransactionMapping["TEAM"]) {
    TextNewTeamPlain();
    NameTeamPlain();
    TeamTemplate();
    assert TeamShape == [Literal("New team: ")] + [Placeholder("team")];
    RenderOne(Literal("New team: "));
    RenderSnoc([Literal("New team: ")], Placeholder("team"));
    assert "New team: " + ("<" + "team" + ">") == "New team: <team>";
    PlainOne(Literal("New team: "));
    PlainSnoc([Literal("New team: ")], Placeholder("team"));
    PlainIsClean(TeamShape);
  }

  lemma GenericTemplate() ensures "GENERIC" in TransactionMapping && TransactionMapping["GENERIC"] == "Generic Action" {
  }

  lemma GenericDescribed() ensures Describes(GenericShape, TransactionMapping["GENERIC"]) {
    TextGenericActionPlain();
    GenericTemplate();
    RenderOne(Literal("Generic Action"));
    PlainOne(Literal("Generic Action"));
    PlainIsClean(GenericShape);
  }

  /** Every registry template is described by its structured reading. */
  lemma ShapesDescribeRegistry(key: string)
    requires key in TransactionMapping
    ensures Describes(ShapeOf(key), TransactionMapping[key])
  {
    RegistryKeys();
    if key == "MINT" { MintDescribed(); }
    else if key == "PAYMENT" { PaymentDescribed(); }
    else if key == "TRANSFER" { TransferDescribed(); }
    else if key == "REPUTATION" { ReputationDescribed(); }
    else if key == "PERMISSIONS" { PermissionsDescribed(); }
    else if key == "UPGRADE" { UpgradeDescribed(); }
    else if key == "DETAILS" { DetailsDescribed(); }
    else if key == "ADDRESS" { AddressDescribed(); }
    else if key == "TEAM" { TeamDescribed(); }
    else { GenericDescribed(); }
  }

  /** No template is the empty string, so a truthiness test on a looked-up template
      succeeds for every key. */
  lemma TemplatesNonEmpty(key: string)
    requires key in TransactionMapping
    ensures TransactionMapping[key] != ""
  {
    RegistryKeys();
    if key == "MINT" { MintTemplate(); }
    else if key == "PAYMENT" { PaymentTemplate(); }
    else if key == "TRANSFER" { TransferTemplate(); }
    else if key == "REPUTATION" { ReputationTemplate(); }
    else if key == "PERMISSIONS" { PermissionsTemplate(); }
    else if key == "UPGRADE" { UpgradeTemplate(); }
    else if key == "DETAILS" { DetailsTemplate(); }
    else if key == "ADDRESS" { AddressTemplate(); }
    else if key == "TEAM" { TeamTemplate(); }
    else { GenericTemplate(); }
  }

  // ---------------------------------------------------------------------------
  // What the registry templates compile to

  lemma {:induction false} LowerMetaFree(shape: seq<Piece>)
    requires forall i :: 0 <= i < |shape| ==> MetaFreePiece(shape[i])
    ensures LiteralsMetaFree(Lower(shape))
    decreases |shape|
  {
    if shape != [] {
      assert MetaFreePiece(shape[0]);
      assert forall i :: 0 <= i < |shape[1..]| ==> MetaFreePiece(shape[1..][i]) by {
        forall i | 0 <= i < |shape[1..]| ensures MetaFreePiece(shape[1..][i]) {
          assert shape[1..][i] == shape[i + 1];
        }
      }
      LowerMetaFree(shape[1..]);
      var rest := Lower(shape[1..]);
      match shape[0]
      case Literal(s) =>
        var p := LitsOf(s) + rest;
        forall i | 0 <= i < |p| && p[i].Lit? ensures !IsRegexMeta(p[i].c) {
          if i >= |s| {
            assert p[i] == rest[i - |s|];
          }
        }
      case Placeholder(_) =>
        var p := [Wild] + rest;
        forall i | 0 <= i < |p| && p[i].Lit? ensures !IsRegexMeta(p[i].c) {
          assert p[i] == rest[i - 1];
        }
    }
  }

  /** Every registry template compiles to its structured reading: its literal text
      taken character by character, none of them a regular-expression
      metacharacter, and one independent wildcard per placeholder. */
  lemma CompiledRegistry(key: string)
    requires key in TransactionMapping
    ensures Compile(TransactionMapping[key]) == Lower(ShapeOf(key))
    ensures Holes(Compile(TransactionMapping[key])) == PlaceholderCount(ShapeOf(key))
    ensures LiteralsMetaFree(Compile(TransactionMapping[key]))
  {
    var shape := ShapeOf(key);
    ShapesDescribeRegistry(key);
    CompileRender(shape);
    LowerFacts(shape, seq(PlaceholderCount(shape), _ => ""));
    LowerMetaFree(shape);
  }

  /** DETAILS, ADDRESS and GENERIC have no placeholder: each accepts exactly the
      titles that contain its text, in any letter case. */
  lemma PlainCategories(key: string, title: string)
    requires key == "DETAILS" || key == "ADDRESS" || key == "GENERIC"
    ensures key in TransactionMapping && '<' !in TransactionMapping[key]
    ensures Test(Compile(TransactionMapping[key]), title) <==> ContainsFolded(title, TransactionMapping[key])
  {
    if key == "DETAILS" {
      DetailsTemplate();
      TextDetailsChangedPlain();
    } else if key == "ADDRESS" {
      AddressTemplate();
      TextAddressBookWasUpdatedPlain();
    } else {
      GenericTemplate();
      TextGenericActionPlain();
    }
    PlainTextNoOpen(TransactionMapping[key]);
    PlainTemplate(TransactionMapping[key], title);
  }

  /** `s` spells `key` in some mixture of upper- and lower-case letters. */
  predicate CasingOf(s: string, key: string) {
    |s| == |key| && forall i :: 0 <= i < |s| ==> AsciiUpper(s[i]) == key[i]
  }

  /** Since every key is upper-case, upper-casing any casing of a key finds it. */
  lemma AnyCasingFindsKey(s: string, key: string)
    requires key in TransactionMapping && CasingOf(s, key)
    ensures ToUpper(s) == key
  {
    KeysUpperCase();
    forall k | 0 <= k < |s| ensures UpperOf(s[k]) == [key[k]] {
      assert 'A' <= key[k] <= 'Z';
      assert s[k] < '\U{0080}';
    }
    ToUpperPointwise(s, key);
  }
}
