/** The title matcher of `verifyTitleCorrespondsToType`: a template such as
    `Pay <user> <amount> <symbol>` has every `<...>` span replaced by the wildcard `.*`
    and is matched, case-insensitively and unanchored, against a title.

    A compiled template is a `Pattern`: literal characters and wildcards. `Test` is the
    search the regular expression performs; `ContainsInstance` is the independent
    meaning — some substring of the title equals, up to case, the template with each
    placeholder filled by text that has no line terminator — and `Test` is proved to
    agree with it.
 */
module Matcher {
  import opened Outcomes
  import opened Text

  datatype Token = Lit(c: char) | Wild
  type Pattern = seq<Token>

  // ---------------------------------------------------------------------------
  // Compiling a template: replace(/<.*?>/g, '.*')

  /** Where the lazy `<.*?>` that starts just before position `k` ends: the first `>`
      at or after `k`, provided no line terminator comes first (`.` cannot match one). */
  function FindClose(t: string, k: nat): (r: Option<nat>)
    requires k <= |t|
    decreases |t| - k
    ensures r.Some? ==> k <= r.value < |t| && t[r.value] == '>'
    ensures r.Some? ==> forall m :: k <= m < r.value ==> t[m] != '>' && !IsLineTerminator(t[m])
    ensures r.None? ==> forall m :: k <= m < |t| && t[m] == '>' ==>
                          exists l :: k <= l < m && IsLineTerminator(t[l])
  {
    if k == |t| then None
    else if t[k] == '>' then Some(k)
    else if IsLineTerminator(t[k]) then None
    else FindClose(t, k + 1)
  }

  /** The global replace, scanning left to right: a `<` with a closing `>` later on the
      same line becomes one wildcard and scanning resumes after the `>`; any other
      character stays literal. */
  function Compile(template: string): Pattern
    decreases |template|
  {
    if template == [] then []
    else if template[0] == '<' && FindClose(template, 1).Some? then
      [Wild] + Compile(template[FindClose(template, 1).value + 1..])
    else [Lit(template[0])] + Compile(template[1..])
  }

  // ---------------------------------------------------------------------------
  // Structured templates: literal text and named placeholders

  datatype Piece = Literal(text: string) | Placeholder(name: string)

  function RenderPiece(piece: Piece): string {
    match piece
    case Literal(s) => s
    case Placeholder(n) => "<" + n + ">"
  }

  /** The template string a sequence of pieces is written as. */
  function Render(shape: seq<Piece>): string {
    if shape == [] then [] else RenderPiece(shape[0]) + Render(shape[1..])
  }

  /** Plain text read as a pattern: one literal per character. */
  function LitsOf(s: string): (p: Pattern)
    ensures |p| == |s| && forall k :: 0 <= k < |s| ==> p[k] == Lit(s[k])
  {
    if s == [] then [] else [Lit(s[0])] + LitsOf(s[1..])
  }

  /** The pattern a structured template stands for: its literal text, and one
      wildcard per placeholder. */
  function Lower(shape: seq<Piece>): Pattern {
    if shape == [] then []
    else match shape[0]
      case Literal(s) => LitsOf(s) + Lower(shape[1..])
      case Placeholder(_) => [Wild] + Lower(shape[1..])
  }

  /** Literal text holds no `<` and a placeholder name holds no `>` and no line break,
      so that the written template reads back as the same pieces. */
  predicate WellFormedPiece(piece: Piece) {
    match piece
    case Literal(s) => '<' !in s
    case Placeholder(n) => '>' !in n && LineFree(n)
  }

  predicate WellFormed(shape: seq<Piece>) {
    forall i :: 0 <= i < |shape| ==> WellFormedPiece(shape[i])
  }

  lemma {:induction false} CompileLiteralPrefix(s: string, rest: string)
    requires '<' !in s
    ensures Compile(s + rest) == LitsOf(s) + Compile(rest)
    decreases |s|
  {
    if s == [] {
      assert s + rest == rest;
    } else {
      var t := s + rest;
      assert t[0] == s[0];
      assert t[1..] == s[1..] + rest;
      CompileLiteralPrefix(s[1..], rest);
    }
  }

  lemma {:induction false} FindCloseAfterName(t: string, k: nat, n: string)
    requires k + |n| < |t|
    requires t[k..k + |n|] == n && t[k + |n|] == '>'
    requires '>' !in n && LineFree(n)
    ensures FindClose(t, k) == Some(k + |n|)
    decreases |n|
  {
    if n != [] {
      assert t[k] == n[0];
      assert t[k + 1..k + 1 + |n[1..]|] == n[1..];
      FindCloseAfterName(t, k + 1, n[1..]);
    }
  }

  lemma WellFormedTail(shape: seq<Piece>)
    requires shape != [] && WellFormed(shape)
    ensures WellFormedPiece(shape[0]) && WellFormed(shape[1..])
  {
    forall i | 0 <= i < |shape[1..]| ensures WellFormedPiece(shape[1..][i]) {
      assert shape[1..][i] == shape[i + 1];
    }
  }

  /** A placeholder, written out, compiles to one wildcard. */
  lemma CompilePlaceholder(name: string, r: string)
    requires '>' !in name && LineFree(name)
    ensures Compile("<" + name + ">" + r) == [Wild] + Compile(r)
  {
    var t := "<" + name + ">" + r;
    assert t[0] == '<';
    assert t[1..1 + |name|] == name && t[1 + |name|] == '>';
    FindCloseAfterName(t, 1, name);
    assert t[|name| + 2..] == r;
  }

  /** One well-formed piece in front of a template that compiles to its reading. */
  lemma CompilePiece(piece: Piece, rest: seq<Piece>)
    requires WellFormedPiece(piece)
    requires Compile(Render(rest)) == Lower(rest)
    ensures Compile(Render([piece] + rest)) == Lower([piece] + rest)
  {
    var shape := [piece] + rest;
    assert shape[0] == piece && shape[1..] == rest;
    var r := Render(rest);
    assert Render(shape) == RenderPiece(piece) + r;
    match piece
    case Literal(text) =>
      CompileLiteralPrefix(text, r);
    case Placeholder(name) =>
      CompilePlaceholder(name, r);
  }

  /** Writing a well-formed structured template out and compiling it gives back its
      literal text and exactly one wildcard per placeholder. */
  lemma {:induction false} CompileRender(shape: seq<Piece>)
    requires WellFormed(shape)
    ensures Compile(Render(shape)) == Lower(shape)
    decreases |shape|
  {
    if shape != [] {
      WellFormedTail(shape);
      CompileRender(shape[1..]);
      CompilePiece(shape[0], shape[1..]);
      assert shape == [shape[0]] + shape[1..];
    }
  }

  // ---------------------------------------------------------------------------
  // Running the compiled pattern: new RegExp(pattern, 'i').test(title)

  /** The pattern matches some prefix of `t`: a literal matches one character up to
      case, a wildcard (`.*`) any run of characters without a line terminator. */
  function MatchPrefix(p: Pattern, t: string): bool
    decreases |p|, |t|
  {
    if p == [] then true
    else match p[0]
      case Lit(c) => |t| > 0 && CharEq(c, t[0]) && MatchPrefix(p[1..], t[1..])
      case Wild =>
        MatchPrefix(p[1..], t) || (|t| > 0 && !IsLineTerminator(t[0]) && MatchPrefix(p, t[1..]))
  }

  /** The unanchored search, trying every start position from `i` to the end. */
  function MatchFrom(p: Pattern, s: string, i: nat): bool
    requires i <= |s|
    decreases |s| - i
  {
    MatchPrefix(p, s[i..]) || (i < |s| && MatchFrom(p, s, i + 1))
  }

  // ---------------------------------------------------------------------------
  // What a match means

  function Holes(p: Pattern): nat {
    if p == [] then 0 else (if p[0].Wild? then 1 else 0) + Holes(p[1..])
  }

  /** The text `p` stands for once its wildcards are filled, in order, by `fills`. */
  function Fill(p: Pattern, fills: seq<string>): string
    requires |fills| == Holes(p)
  {
    if p == [] then []
    else match p[0]
      case Lit(c) => [c] + Fill(p[1..], fills)
      case Wild => fills[0] + Fill(p[1..], fills[1..])
  }

  ghost predicate FillsOk(fills: seq<string>) {
    forall k :: 0 <= k < |fills| ==> LineFree(fills[k])
  }

  /** `a` equals a prefix of `t` up to case. */
  ghost predicate FoldPrefix(a: string, t: string) {
    |a| <= |t| && forall k :: 0 <= k < |a| ==> CharEq(a[k], t[k])
  }

  ghost predicate PrefixInstance(p: Pattern, t: string, fills: seq<string>) {
    |fills| == Holes(p) && FillsOk(fills) && FoldPrefix(Fill(p, fills), t)
  }

  ghost predicate InstanceAt(p: Pattern, s: string, i: int, fills: seq<string>) {
    0 <= i <= |s| && PrefixInstance(p, s[i..], fills)
  }

  /** Some substring of `s` is, up to case, `p` with each wildcard filled by text free
      of line terminators. */
  ghost predicate ContainsInstance(p: Pattern, s: string) {
    exists i, fills :: InstanceAt(p, s, i, fills)
  }

  lemma FoldPrefixCons(c: char, a: string, t: string)
    requires |t| > 0 && CharEq(c, t[0]) && FoldPrefix(a, t[1..])
    ensures FoldPrefix([c] + a, t)
  {
    var x := [c] + a;
    forall k | 0 <= k < |x| ensures CharEq(x[k], t[k]) {
      if k > 0 {
        assert x[k] == a[k - 1] && t[k] == t[1..][k - 1];
      }
    }
  }

  lemma FoldPrefixTail(a: string, t: string)
    requires FoldPrefix(a, t) && |a| > 0
    ensures CharEq(a[0], t[0]) && FoldPrefix(a[1..], t[1..])
  {
    forall k | 0 <= k < |a[1..]| ensures CharEq(a[1..][k], t[1..][k]) {
      assert a[1..][k] == a[k + 1] && t[1..][k] == t[k + 1];
    }
  }

  lemma FillsOkCons(w: string, rest: seq<string>)
    requires LineFree(w) && FillsOk(rest)
    ensures FillsOk([w] + rest)
  {
    var f := [w] + rest;
    forall k | 0 <= k < |f| ensures LineFree(f[k]) {
      if k > 0 {
        assert f[k] == rest[k - 1];
      }
    }
  }

  /** Soundness: a match of `p` at the start of `t` yields the fills it used. */
  lemma {:induction false} MatchWitness(p: Pattern, t: string) returns (fills: seq<string>)
    requires MatchPrefix(p, t)
    ensures PrefixInstance(p, t, fills)
    decreases |p|, |t|
  {
    if p == [] {
      fills := [];
    } else {
      match p[0]
      case Lit(c) =>
        fills := MatchWitness(p[1..], t[1..]);
        FoldPrefixCons(c, Fill(p[1..], fills), t);
      case Wild =>
        if MatchPrefix(p[1..], t) {
          var rest := MatchWitness(p[1..], t);
          fills := [""] + rest;
          assert fills[1..] == rest;
          assert Fill(p, fills) == Fill(p[1..], rest);
          FillsOkCons("", rest);
        } else {
          var f := MatchWitness(p, t[1..]);
          var w := [t[0]] + f[0];
          fills := [w] + f[1..];
          assert fills[1..] == f[1..];
          assert Fill(p, fills) == [t[0]] + Fill(p, f);
          assert LineFree(w) by {
            assert LineFree(f[0]);
            forall k | 0 <= k < |w| ensures !IsLineTerminator(w[k]) {
              if k > 0 {
                assert w[k] == f[0][k - 1];
              }
            }
          }
          assert FillsOk(f[1..]) by {
            forall k | 0 <= k < |f[1..]| ensures LineFree(f[1..][k]) {
              assert f[1..][k] == f[k + 1];
            }
          }
          FillsOkCons(w, f[1..]);
          FoldPrefixCons(t[0], Fill(p, f), t);
        }
    }
  }

  /** Completeness: whenever a filled-in `p` sits at the start of `t`, the matcher
      finds a match there. */
  lemma {:induction false} WitnessMatch(p: Pattern, t: string, fills: seq<string>)
    requires PrefixInstance(p, t, fills)
    ensures MatchPrefix(p, t)
    decreases |p|, if |fills| > 0 then |fills[0]| else 0
  {
    if p != [] {
      match p[0]
      case Lit(c) =>
        assert Fill(p, fills) == [c] + Fill(p[1..], fills);
        FoldPrefixTail(Fill(p, fills), t);
        assert Fill(p, fills)[1..] == Fill(p[1..], fills);
        WitnessMatch(p[1..], t[1..], fills);
      case Wild =>
        var w := fills[0];
        assert Fill(p, fills) == w + Fill(p[1..], fills[1..]);
        assert LineFree(w);
        assert FillsOk(fills[1..]) by {
          forall k | 0 <= k < |fills[1..]| ensures LineFree(fills[1..][k]) {
            assert fills[1..][k] == fills[k + 1];
          }
        }
        if w == [] {
          assert Fill(p, fills) == Fill(p[1..], fills[1..]);
          WitnessMatch(p[1..], t, fills[1..]);
        } else {
          var f := [w[1..]] + fills[1..];
          assert f[1..] == fills[1..];
          assert Fill(p, f) == w[1..] + Fill(p[1..], fills[1..]);
          assert Fill(p, f) == Fill(p, fills)[1..];
          FoldPrefixTail(Fill(p, fills), t);
          assert LineFree(w[1..]) by {
            forall k | 0 <= k < |w[1..]| ensures !IsLineTerminator(w[1..][k]) {
              assert w[1..][k] == w[k + 1];
            }
          }
          FillsOkCons(w[1..], fills[1..]);
          assert Fill(p, fills)[0] == w[0];
          CharEqKeepsLineTerminator(w[0], t[0]);
          WitnessMatch(p, t[1..], f);
        }
    }
  }

  /** A search that succeeds from `i` found an instance at some start from `i` on. */
  lemma {:induction false} MatchFromSound(p: Pattern, s: string, i: nat) returns (j: nat, fills: seq<string>)
    requires i <= |s| && MatchFrom(p, s, i)
    ensures i <= j && InstanceAt(p, s, j, fills)
    decreases |s| - i
  {
    if MatchPrefix(p, s[i..]) {
      j := i;
      fills := MatchWitness(p, s[i..]);
    } else {
      j, fills := MatchFromSound(p, s, i + 1);
    }
  }

  /** An instance starting at `j` is found by a search from any `i` up to `j`. */
  lemma {:induction false} MatchFromComplete(p: Pattern, s: string, i: nat, j: nat, fills: seq<string>)
    requires i <= j && InstanceAt(p, s, j, fills)
    ensures MatchFrom(p, s, i)
    decreases j - i
  {
    if j == i {
      WitnessMatch(p, s[i..], fills);
    } else {
      MatchFromComplete(p, s, i + 1, j, fills);
    }
  }

  lemma MatchFromSpec(p: Pattern, s: string, i: nat)
    requires i <= |s|
    ensures MatchFrom(p, s, i) <==> exists j, fills :: i <= j && InstanceAt(p, s, j, fills)
  {
    if MatchFrom(p, s, i) {
      var j, fills := MatchFromSound(p, s, i);
    }
    if exists j, fills :: i <= j && InstanceAt(p, s, j, fills) {
      var j, fills :| i <= j && InstanceAt(p, s, j, fills);
      MatchFromComplete(p, s, i, j, fills);
    }
  }

  /** `regex.test(title)`: true exactly when the title contains a filled-in instance
      of the pattern, anywhere and in any letter case. */
  function Test(p: Pattern, s: string): (r: bool)
    ensures r <==> ContainsInstance(p, s)
  {
    MatchFromSpec(p, s, 0);
    MatchFrom(p, s, 0)
  }

  // ---------------------------------------------------------------------------
  // Consequences

  lemma FoldPrefixExtend(a: string, t: string, u: string)
    requires FoldPrefix(a, t)
    ensures FoldPrefix(a, t + u)
  {
    forall k | 0 <= k < |a| ensures CharEq(a[k], (t + u)[k]) {
      assert (t + u)[k] == t[k];
    }
  }

  /** The match is unanchored: text before or after a matching title never hurts. */
  lemma Unanchored(p: Pattern, s: string, before: string, after: string)
    requires Test(p, s)
    ensures Test(p, before + s + after)
  {
    var i, fills :| InstanceAt(p, s, i, fills);
    var s' := before + s + after;
    assert s'[|before| + i..] == s[i..] + after;
    FoldPrefixExtend(Fill(p, fills), s[i..], after);
    assert InstanceAt(p, s', |before| + i, fills);
  }

  lemma {:induction false} LitsOfFacts(x: string)
    ensures Holes(LitsOf(x)) == 0
    ensures Fill(LitsOf(x), []) == x
    decreases |x|
  {
    if x != [] {
      LitsOfFacts(x[1..]);
      assert LitsOf(x)[1..] == LitsOf(x[1..]);
    }
  }

  /** `x` occurs in `s`, up to case. */
  ghost predicate ContainsFolded(s: string, x: string) {
    exists i :: 0 <= i <= |s| && FoldPrefix(x, s[i..])
  }

  /** A template without placeholders accepts exactly the titles containing it. */
  lemma PlainTemplate(x: string, s: string)
    requires '<' !in x
    ensures Compile(x) == LitsOf(x)
    ensures Test(Compile(x), s) <==> ContainsFolded(s, x)
  {
    CompileLiteralPrefix(x, []);
    assert x + [] == x;
    LitsOfFacts(x);
    var p := LitsOf(x);
    if Test(p, s) {
      var i, fills :| InstanceAt(p, s, i, fills);
      assert fills == [];
      assert FoldPrefix(x, s[i..]);
    }
    if ContainsFolded(s, x) {
      var i :| 0 <= i <= |s| && FoldPrefix(x, s[i..]);
      assert InstanceAt(p, s, i, []);
    }
  }

  /** The literal characters of `p`, in order. */
  function Literals(p: Pattern): string {
    if p == [] then []
    else match p[0]
      case Lit(c) => [c] + Literals(p[1..])
      case Wild => Literals(p[1..])
  }

  /** How many characters of `s` equal `c` up to case. */
  function CountFold(s: string, c: char): nat {
    if s == [] then 0 else (if CharEq(s[0], c) then 1 else 0) + CountFold(s[1..], c)
  }

  lemma {:induction false} MatchPrefixCounts(p: Pattern, t: string, c: char)
    requires MatchPrefix(p, t)
    ensures CountFold(Literals(p), c) <= CountFold(t, c)
    decreases |p|, |t|
  {
    if p != [] {
      match p[0]
      case Lit(d) =>
        MatchPrefixCounts(p[1..], t[1..], c);
        assert Literals(p)[1..] == Literals(p[1..]);
      case Wild =>
        if MatchPrefix(p[1..], t) {
          MatchPrefixCounts(p[1..], t, c);
        } else {
          MatchPrefixCounts(p, t[1..], c);
        }
    }
  }

  lemma {:induction false} CountFoldSuffix(s: string, i: nat, c: char)
    requires i <= |s|
    ensures CountFold(s[i..], c) <= CountFold(s, c)
    decreases i
  {
    if i > 0 {
      CountFoldSuffix(s[1..], i - 1, c);
      assert s[1..][i - 1..] == s[i..];
    }
  }

  lemma {:induction false} MatchFromCounts(p: Pattern, s: string, i: nat, c: char)
    requires i <= |s| && MatchFrom(p, s, i)
    ensures CountFold(Literals(p), c) <= CountFold(s, c)
    decreases |s| - i
  {
    if MatchPrefix(p, s[i..]) {
      MatchPrefixCounts(p, s[i..], c);
      CountFoldSuffix(s, i, c);
    } else {
      MatchFromCounts(p, s, i + 1, c);
    }
  }

  /** Every literal character of the template must be found in the title: a title
      with fewer copies of some character than the template's literal text is
      rejected. */
  lemma TestNeedsLiterals(p: Pattern, s: string, c: char)
    requires Test(p, s)
    ensures CountFold(Literals(p), c) <= CountFold(s, c)
  {
    MatchFromCounts(p, s, 0, c);
  }

  // ---------------------------------------------------------------------------
  // Structured templates and the titles they accept

  function PlaceholderCount(shape: seq<Piece>): nat {
    if shape == [] then 0
    else (if shape[0].Placeholder? then 1 else 0) + PlaceholderCount(shape[1..])
  }

  /** The title a structured template reads as once its placeholders are replaced,
      in order, by `values`. */
  function Instantiate(shape: seq<Piece>, values: seq<string>): string
    requires |values| == PlaceholderCount(shape)
  {
    if shape == [] then []
    else match shape[0]
      case Literal(s) => s + Instantiate(shape[1..], values)
      case Placeholder(_) => values[0] + Instantiate(shape[1..], values[1..])
  }

  lemma InstantiateLiteralStep(text: string, a: seq<Piece>, b: seq<Piece>, va: seq<string>, vb: seq<string>)
    requires |va| == PlaceholderCount(a) && |vb| == PlaceholderCount(b)
    requires PlaceholderCount(a + b) == |va + vb|
    requires Instantiate(a + b, va + vb) == Instantiate(a, va) + Instantiate(b, vb)
    ensures PlaceholderCount([Literal(text)] + a) == |va|
    ensures PlaceholderCount([Literal(text)] + a + b) == |va + vb|
    ensures Instantiate([Literal(text)] + a + b, va + vb) == Instantiate([Literal(text)] + a, va) + Instantiate(b, vb)
  {
    var x := [Literal(text)] + a;
    assert x[0] == Literal(text) && x[1..] == a;
    assert (x + b)[0] == Literal(text) && (x + b)[1..] == a + b;
    assert Instantiate(x + b, va + vb) == text + Instantiate(a + b, va + vb);
    assert Instantiate(x, va) == text + Instantiate(a, va);
    ConcatAssoc(text, Instantiate(a, va), Instantiate(b, vb));
  }

  lemma InstantiatePlaceholderStep(name: string, a: seq<Piece>, b: seq<Piece>, v: string,
                                   va: seq<string>, vb: seq<string>)
    requires |va| == PlaceholderCount(a) && |vb| == PlaceholderCount(b)
    requires PlaceholderCount(a + b) == |va + vb|
    requires Instantiate(a + b, va + vb) == Instantiate(a, va) + Instantiate(b, vb)
    ensures PlaceholderCount([Placeholder(name)] + a) == |[v] + va|
    ensures PlaceholderCount([Placeholder(name)] + a + b) == |[v] + va + vb|
    ensures Instantiate([Placeholder(name)] + a + b, [v] + va + vb)
            == Instantiate([Placeholder(name)] + a, [v] + va) + Instantiate(b, vb)
  {
    var x := [Placeholder(name)] + a;
    assert x[0] == Placeholder(name) && x[1..] == a;
    assert (x + b)[0] == Placeholder(name) && (x + b)[1..] == a + b;
    assert ([v] + va + vb)[0] == v && ([v] + va + vb)[1..] == va + vb;
    assert ([v] + va)[0] == v && ([v] + va)[1..] == va;
    assert Instantiate(x + b, [v] + va + vb) == v + Instantiate(a + b, va + vb);
    assert Instantiate(x, [v] + va) == v + Instantiate(a, va);
    ConcatAssoc(v, Instantiate(a, va), Instantiate(b, vb));
  }

  /** Filling a template made of two parts fills each part with its own values. */
  lemma {:induction false} InstantiateAppend(a: seq<Piece>, b: seq<Piece>, va: seq<string>, vb: seq<string>)
    requires |va| == PlaceholderCount(a) && |vb| == PlaceholderCount(b)
    ensures PlaceholderCount(a + b) == |va + vb|
    ensures Instantiate(a + b, va + vb) == Instantiate(a, va) + Instantiate(b, vb)
    decreases |a|
  {
    if a == [] {
      assert a + b == b;
      assert va + vb == vb;
    } else {
      assert a == [a[0]] + a[1..];
      match a[0]
      case Literal(text) =>
        InstantiateAppend(a[1..], b, va, vb);
        InstantiateLiteralStep(text, a[1..], b, va, vb);
      case Placeholder(name) =>
        InstantiateAppend(a[1..], b, va[1..], vb);
        InstantiatePlaceholderStep(name, a[1..], b, va[0], va[1..], vb);
        assert va == [va[0]] + va[1..];
    }
  }

  /** The literal text of a structured template, placeholders left out. */
  function LiteralText(shape: seq<Piece>): string {
    if shape == [] then []
    else match shape[0]
      case Literal(s) => s + LiteralText(shape[1..])
      case Placeholder(_) => LiteralText(shape[1..])
  }

  lemma {:induction false} LitsPrefixHoles(x: string, p: Pattern)
    ensures Holes(LitsOf(x) + p) == Holes(p)
    ensures Literals(LitsOf(x) + p) == x + Literals(p)
    decreases |x|
  {
    if x == [] {
      assert LitsOf(x) + p == p;
    } else {
      var q := LitsOf(x[1..]) + p;
      LitsPrefixHoles(x[1..], p);
      assert LitsOf(x) + p == [Lit(x[0])] + q;
      assert ([Lit(x[0])] + q)[0] == Lit(x[0]) && ([Lit(x[0])] + q)[1..] == q;
      ConcatAssoc([x[0]], x[1..], Literals(p));
      assert x == [x[0]] + x[1..];
    }
  }

  lemma FillLit(c: char, p: Pattern, fills: seq<string>)
    requires |fills| == Holes(p)
    ensures Holes([Lit(c)] + p) == Holes(p)
    ensures Fill([Lit(c)] + p, fills) == [c] + Fill(p, fills)
  {
    var q := [Lit(c)] + p;
    assert q[0] == Lit(c) && q[1..] == p;
  }

  lemma {:induction false} LitsPrefixFill(x: string, p: Pattern, fills: seq<string>)
    requires |fills| == Holes(p)
    ensures Holes(LitsOf(x) + p) == Holes(p)
    ensures Fill(LitsOf(x) + p, fills) == x + Fill(p, fills)
    decreases |x|
  {
    if x == [] {
      assert LitsOf(x) + p == p;
    } else {
      var q := LitsOf(x[1..]) + p;
      LitsPrefixFill(x[1..], p, fills);
      assert LitsOf(x) + p == [Lit(x[0])] + q;
      FillLit(x[0], q, fills);
      ConcatAssoc([x[0]], x[1..], Fill(p, fills));
      assert x == [x[0]] + x[1..];
    }
  }

  lemma {:induction false} LowerFacts(shape: seq<Piece>, values: seq<string>)
    requires |values| == PlaceholderCount(shape)
    ensures Holes(Lower(shape)) == PlaceholderCount(shape)
    ensures Fill(Lower(shape), values) == Instantiate(shape, values)
    ensures Literals(Lower(shape)) == LiteralText(shape)
    decreases |shape|
  {
    if shape != [] {
      match shape[0]
      case Literal(s) =>
        LowerFacts(shape[1..], values);
        LitsPrefixHoles(s, Lower(shape[1..]));
        LitsPrefixFill(s, Lower(shape[1..]), values);
      case Placeholder(_) =>
        LowerFacts(shape[1..], values[1..]);
        var q := [Wild] + Lower(shape[1..]);
        assert q[1..] == Lower(shape[1..]);
    }
  }

  lemma FoldPrefixRefl(s: string)
    ensures FoldPrefix(s, s)
  {
  }

  /** A well-formed template accepts every title obtained by filling its placeholders
      with text free of line breaks. */
  lemma ShapeAccepts(shape: seq<Piece>, values: seq<string>)
    requires WellFormed(shape)
    requires |values| == PlaceholderCount(shape) && FillsOk(values)
    ensures Test(Compile(Render(shape)), Instantiate(shape, values))
  {
    CompileRender(shape);
    LowerFacts(shape, values);
    var s := Instantiate(shape, values);
    FoldPrefixRefl(s);
    assert s[0..] == s;
    assert InstanceAt(Lower(shape), s, 0, values);
  }

  /** A title is rejected when it holds fewer copies of some character than the
      literal text of the template. */
  lemma ShapeRejects(shape: seq<Piece>, s: string, c: char)
    requires WellFormed(shape)
    requires CountFold(s, c) < CountFold(LiteralText(shape), c)
    ensures !Test(Compile(Render(shape)), s)
  {
    CompileRender(shape);
    LowerFacts(shape, seq(PlaceholderCount(shape), _ => ""));
    if Test(Lower(shape), s) {
      TestNeedsLiterals(Lower(shape), s, c);
    }
  }
}
