/** The JavaScript string primitives the helpers rely on: the `\s` / `trim()`
    whitespace class, regex line terminators, `toUpperCase()`, `join(' ')` and the
    `replace(/\s+/g, ' ')` whitespace collapse.

    Strings are sequences of Unicode scalar values; JavaScript's UTF-16 code units
    coincide with them everywhere outside surrogate pairs.
 */
module Text {

  /** The characters `.` refuses to match in a JavaScript regular expression. */
  predicate IsLineTerminator(c: char) {
    c == '\n' || c == '\r' || c == '\U{2028}' || c == '\U{2029}'
  }

  /** ECMAScript WhiteSpace plus LineTerminator: the set `\s` matches and `trim()` removes. */
  predicate IsSpace(c: char) {
    || c == '\t' || c == '\n' || c == '\U{000B}' || c == '\U{000C}' || c == '\r' || c == ' '
    || c == '\U{00A0}' || c == '\U{1680}' || ('\U{2000}' <= c <= '\U{200A}')
    || c == '\U{2028}' || c == '\U{2029}' || c == '\U{202F}' || c == '\U{205F}'
    || c == '\U{3000}' || c == '\U{FEFF}'
  }

  /** `\d` without the unicode flag: the ASCII digits only. */
  predicate IsDigit(c: char) {
    '0' <= c <= '9'
  }

  predicate AllSpace(s: string) {
    forall k :: 0 <= k < |s| ==> IsSpace(s[k])
  }

  predicate LineFree(s: string) {
    forall k :: 0 <= k < |s| ==> !IsLineTerminator(s[k])
  }

  /** Neither end of `s` is whitespace. */
  predicate NoEdgeSpace(s: string) {
    s == [] || (!IsSpace(s[0]) && !IsSpace(s[|s| - 1]))
  }

  // ---------------------------------------------------------------------------
  // Case

  /** Simple ASCII upper-casing of one character. */
  function AsciiUpper(c: char): char {
    if 'a' <= c <= 'z' then (c as int - 32) as char else c
  }

  /** Equality under the regex `i` flag. The flag's canonicalisation never maps a
      non-ASCII character onto an ASCII one, so against ASCII text this is exact. */
  predicate CharEq(a: char, b: char) {
    AsciiUpper(a) == AsciiUpper(b)
  }

  lemma CharEqKeepsLineTerminator(a: char, b: char)
    requires CharEq(a, b)
    ensures IsLineTerminator(a) <==> IsLineTerminator(b)
  {
  }

  /** `String.prototype.toUpperCase` on one character, exact for every character whose
      upper-case form is pure ASCII: a-z, dotless i, long s, sharp s and the Latin
      ligatures. Every other character is returned as it is. */
  function UpperOf(c: char): (r: string)
    ensures |r| >= 1
    ensures 'a' <= c <= 'z' ==> r == [AsciiUpper(c)]
    ensures c < '\U{0080}' ==> r == [AsciiUpper(c)]
  {
    if 'a' <= c <= 'z' then [AsciiUpper(c)]
    else if c == '\U{0131}' then "I"
    else if c == '\U{017F}' then "S"
    else if c == '\U{00DF}' then "SS"
    else if c == '\U{FB00}' then "FF"
    else if c == '\U{FB01}' then "FI"
    else if c == '\U{FB02}' then "FL"
    else if c == '\U{FB03}' then "FFI"
    else if c == '\U{FB04}' then "FFL"
    else if c == '\U{FB05}' || c == '\U{FB06}' then "ST"
    else [c]
  }

  /** `String.prototype.toUpperCase`: each character upper-cased in turn. No
      character disappears, though some become two or three. */
  function ToUpper(s: string): (r: string)
    ensures |r| >= |s|
  {
    if s == [] then [] else UpperOf(s[0]) + ToUpper(s[1..])
  }

  /** Whenever each character upper-cases to exactly the matching character of `u`,
      the whole string upper-cases to `u`. */
  lemma {:induction false} ToUpperPointwise(s: string, u: string)
    requires |s| == |u|
    requires forall k :: 0 <= k < |s| ==> UpperOf(s[k]) == [u[k]]
    ensures ToUpper(s) == u
  {
    if s != [] {
      assert UpperOf(s[0]) == [u[0]];
      ToUpperPointwise(s[1..], u[1..]);
      assert u == [u[0]] + u[1..];
    }
  }

  // ---------------------------------------------------------------------------
  // Trimming

  /** `s` without its leading whitespace (the first half of `trim()`). */
  function TrimStart(s: string): (r: string)
    ensures |r| <= |s|
  {
    if s != [] && IsSpace(s[0]) then TrimStart(s[1..]) else s
  }

  /** `TrimStart` removes a whitespace-only prefix and leaves text that does not
      start with whitespace. */
  lemma {:induction false} TrimStartFacts(s: string)
    ensures TrimStart(s) == s[|s| - |TrimStart(s)|..]
    ensures AllSpace(s[..|s| - |TrimStart(s)|])
    ensures TrimStart(s) == [] || !IsSpace(TrimStart(s)[0])
    decreases |s|
  {
    if s != [] && IsSpace(s[0]) {
      TrimStartFacts(s[1..]);
      var r := TrimStart(s[1..]);
      assert s[..|s| - |r|] == [s[0]] + s[1..][..|s| - 1 - |r|];
      assert s[1..][|s| - 1 - |r|..] == s[|s| - |r|..];
    }
  }

  /** `s` without its trailing whitespace (the second half of `trim()`). */
  function TrimEnd(s: string): (r: string)
    ensures |r| <= |s|
  {
    if s != [] && IsSpace(s[|s| - 1]) then TrimEnd(s[..|s| - 1]) else s
  }

  /** `TrimEnd` removes a whitespace-only suffix and leaves text that does not end
      with whitespace. */
  lemma {:induction false} TrimEndFacts(s: string)
    ensures TrimEnd(s) == s[..|TrimEnd(s)|]
    ensures AllSpace(s[|TrimEnd(s)|..])
    ensures TrimEnd(s) == [] || !IsSpace(TrimEnd(s)[|TrimEnd(s)| - 1])
    decreases |s|
  {
    if s != [] && IsSpace(s[|s| - 1]) {
      TrimEndFacts(s[..|s| - 1]);
      var r := TrimEnd(s[..|s| - 1]);
      assert s[|r|..] == s[..|s| - 1][|r|..] + [s[|s| - 1]];
      assert s[..|s| - 1][..|r|] == s[..|r|];
    }
  }

  /** `String.prototype.trim`: `s` with whitespace removed from both ends. */
  function Trim(s: string): (r: string)
    ensures NoEdgeSpace(r) && |r| <= |s|
  {
    TrimStartFacts(s);
    TrimEndFacts(TrimStart(s));
    TrimEnd(TrimStart(s))
  }

  /** What `Trim` removes is whitespace only: the result is the middle of `s`,
      starting at `i`, between two whitespace-only edges. */
  lemma TrimSlice(s: string) returns (i: nat)
    ensures i + |Trim(s)| <= |s| && Trim(s) == s[i..i + |Trim(s)|]
    ensures AllSpace(s[..i]) && AllSpace(s[i + |Trim(s)|..])
  {
    var t := TrimStart(s);
    var r := TrimEnd(t);
    TrimStartFacts(s);
    TrimEndFacts(t);
    i := |s| - |t|;
    assert t == s[i..];
    assert r == s[i..i + |r|];
    assert s[i + |r|..] == t[|r|..];
  }

  lemma {:induction false} TrimStartSpaces(pre: string, x: string)
    requires AllSpace(pre) && (x == [] || !IsSpace(x[0]))
    ensures TrimStart(pre + x) == x
    decreases |pre|
  {
    if pre == [] {
      assert pre + x == x;
    } else {
      assert (pre + x)[0] == pre[0];
      assert (pre + x)[1..] == pre[1..] + x;
      TrimStartSpaces(pre[1..], x);
    }
  }

  lemma {:induction false} TrimEndSpaces(x: string, post: string)
    requires AllSpace(post) && (x == [] || !IsSpace(x[|x| - 1]))
    ensures TrimEnd(x + post) == x
    decreases |post|
  {
    if post == [] {
      assert x + post == x;
    } else {
      var s := x + post;
      assert s[|s| - 1] == post[|post| - 1];
      assert s[..|s| - 1] == x + post[..|post| - 1];
      TrimEndSpaces(x, post[..|post| - 1]);
    }
  }

  /** Trimming removes exactly the whitespace padding around text that neither
      starts nor ends with whitespace. */
  lemma TrimPadded(pre: string, core: string, post: string)
    requires AllSpace(pre) && AllSpace(post) && NoEdgeSpace(core)
    ensures Trim(pre + core + post) == core
  {
    if core == [] {
      assert pre + core + post == pre + post;
      TrimStartSpaces(pre + post, []);
      assert pre + post + [] == pre + post;
    } else {
      assert pre + core + post == pre + (core + post);
      assert (core + post)[0] == core[0];
      TrimStartSpaces(pre, core + post);
      TrimEndSpaces(core, post);
    }
  }

  lemma TrimFixesTrimmed(s: string)
    requires NoEdgeSpace(s)
    ensures Trim(s) == s
  {
  }

  lemma TrimIdempotent(s: string)
    ensures Trim(Trim(s)) == Trim(s)
  {
    TrimFixesTrimmed(Trim(s));
  }

  // ---------------------------------------------------------------------------
  // Joining and collapsing whitespace

  /** `Array.prototype.join(sep)` on strings. */
  function Join(parts: seq<string>, sep: string): string {
    if |parts| == 0 then ""
    else if |parts| == 1 then parts[0]
    else parts[0] + sep + Join(parts[1..], sep)
  }

  /** All characters of `s` that are not whitespace, in order. */
  function Strip(s: string): string {
    if s == [] then []
    else if IsSpace(s[0]) then Strip(s[1..])
    else [s[0]] + Strip(s[1..])
  }

  /** The only whitespace in `s` is the plain space, and no two spaces are adjacent:
      the shape `replace(/\s+/g, ' ')` leaves behind. */
  ghost predicate SingleSpaced(s: string) {
    && (forall k :: 0 <= k < |s| && IsSpace(s[k]) ==> s[k] == ' ')
    && (forall j, k :: 0 <= j < k < |s| && k == j + 1 ==> !(IsSpace(s[j]) && IsSpace(s[k])))
  }

  /** `replace(/\s+/g, ' ')`: every maximal whitespace run becomes one space. */
  function Collapse(s: string): (r: string)
    ensures |r| <= |s|
    decreases |s|
  {
    if s == [] then []
    else if IsSpace(s[0]) then
      assert TrimStart(s) == TrimStart(s[1..]);
      [' '] + Collapse(TrimStart(s))
    else [s[0]] + Collapse(s[1..])
  }

  /** What the collapse of `s` into `r` keeps and what it removes. */
  ghost predicate CollapsedFrom(s: string, r: string) {
    && SingleSpaced(r)
    && Strip(r) == Strip(s)
    && (|s| > 0 <==> |r| > 0)
    && (|s| > 0 ==> r[0] == (if IsSpace(s[0]) then ' ' else s[0]))
    && (|s| > 0 ==> r[|r| - 1] == (if IsSpace(s[|s| - 1]) then ' ' else s[|s| - 1]))
  }

  /** Collapsing leaves single plain spaces only, keeps every other character in
      order, and turns an edge run of whitespace into one space at that edge. */
  lemma {:induction false} CollapseShape(s: string)
    ensures SingleSpaced(Collapse(s))
    ensures Strip(Collapse(s)) == Strip(s)
    ensures |s| > 0 <==> |Collapse(s)| > 0
    ensures |s| > 0 ==> Collapse(s)[0] == (if IsSpace(s[0]) then ' ' else s[0])
    ensures |s| > 0 ==> Collapse(s)[|Collapse(s)| - 1] == (if IsSpace(s[|s| - 1]) then ' ' else s[|s| - 1])
    decreases |s|
  {
    if s != [] {
      if IsSpace(s[0]) {
        CollapseShape(TrimStart(s));
        CollapseSpaceCase(s);
      } else {
        CollapseShape(s[1..]);
        CollapseCharCase(s);
      }
    }
  }

  /** A leading whitespace run becomes one space in front of the collapsed rest. */
  lemma CollapseSpaceCase(s: string)
    requires s != [] && IsSpace(s[0])
    requires CollapsedFrom(TrimStart(s), Collapse(TrimStart(s)))
    ensures CollapsedFrom(s, Collapse(s))
  {
    var t := TrimStart(s);
    var c := Collapse(t);
    LeadingRun(s);
    assert Collapse(s) == [' '] + c;
    assert c == [] || !IsSpace(c[0]);
    CollapseStep(' ', c);
  }

  /** What dropping a leading whitespace run keeps: the stripped content, and the
      last character unless the whole of `s` was whitespace. */
  lemma LeadingRun(s: string)
    requires s != [] && IsSpace(s[0])
    ensures Strip(TrimStart(s)) == Strip(s)
    ensures TrimStart(s) == [] || !IsSpace(TrimStart(s)[0])
    ensures TrimStart(s) == [] ==> IsSpace(s[|s| - 1])
    ensures TrimStart(s) != [] ==> TrimStart(s)[|TrimStart(s)| - 1] == s[|s| - 1]
  {
    var t := TrimStart(s);
    TrimStartFacts(s);
    StripSpacePrefix(s, |s| - |t|);
    if t == [] {
      assert s[..|s| - |t|][|s| - 1] == s[|s| - 1];
    }
  }

  /** Any other first character is kept in front of the collapsed rest. */
  lemma CollapseCharCase(s: string)
    requires s != [] && !IsSpace(s[0])
    requires CollapsedFrom(s[1..], Collapse(s[1..]))
    ensures CollapsedFrom(s, Collapse(s))
  {
    var t := s[1..];
    assert Collapse(s) == [s[0]] + Collapse(t);
    CollapseStep(s[0], Collapse(t));
    assert Strip(s) == [s[0]] + Strip(t);
  }

  /** One step of the collapse: a character put in front of a collapsed tail. */
  lemma CollapseStep(x: char, c: string)
    requires SingleSpaced(c)
    requires IsSpace(x) ==> x == ' ' && (c == [] || !IsSpace(c[0]))
    ensures SingleSpaced([x] + c)
    ensures Strip([x] + c) == (if IsSpace(x) then Strip(c) else [x] + Strip(c))
    ensures ([x] + c)[0] == x
    ensures ([x] + c)[|c|] == (if c == [] then x else c[|c| - 1])
  {
    SingleSpacedCons(x, c);
    assert ([x] + c)[1..] == c;
  }

  lemma SingleSpacedCons(c: char, r: string)
    requires SingleSpaced(r)
    requires IsSpace(c) ==> c == ' ' && (r == [] || !IsSpace(r[0]))
    ensures SingleSpaced([c] + r)
  {
    var s := [c] + r;
    forall j, k | 0 <= j < k < |s| && k == j + 1
      ensures !(IsSpace(s[j]) && IsSpace(s[k]))
    {
      if j > 0 {
        assert s[j] == r[j - 1] && s[k] == r[k - 1];
      }
    }
    forall k | 0 <= k < |s| && IsSpace(s[k])
      ensures s[k] == ' '
    {
      if k > 0 {
        assert s[k] == r[k - 1];
      }
    }
  }

  /** Dropping a whitespace-only prefix does not change the stripped content. */
  lemma {:induction false} StripSpacePrefix(s: string, n: nat)
    requires n <= |s|
    requires AllSpace(s[..n])
    ensures Strip(s[n..]) == Strip(s)
    decreases n
  {
    if n > 0 {
      assert IsSpace(s[..n][0]);
      assert s[1..][..n - 1] == s[1..n];
      StripSpacePrefix(s[1..], n - 1);
      assert s[1..][n - 1..] == s[n..];
    }
  }

  lemma {:induction false} StripConcat(a: string, b: string)
    ensures Strip(a + b) == Strip(a) + Strip(b)
    decreases |a|
  {
    if a == [] {
      assert a + b == b;
    } else {
      assert (a + b)[0] == a[0];
      assert (a + b)[1..] == a[1..] + b;
      StripConcat(a[1..], b);
    }
  }

  lemma {:induction false} StripAllSpace(s: string)
    requires AllSpace(s)
    ensures Strip(s) == []
    decreases |s|
  {
    if s != [] {
      StripAllSpace(s[1..]);
    }
  }

  /** Trimming removes whitespace only. */
  lemma StripTrim(s: string)
    ensures Strip(Trim(s)) == Strip(s)
  {
    var t := TrimStart(s);
    var r := TrimEnd(t);
    TrimStartFacts(s);
    TrimEndFacts(t);
    assert Trim(s) == r;
    StripSpacePrefix(s, |s| - |t|);
    assert t == r + t[|r|..];
    StripConcat(r, t[|r|..]);
    StripAllSpace(t[|r|..]);
  }

  lemma SingleSpacedTail(s: string)
    requires s != [] && SingleSpaced(s)
    ensures SingleSpaced(s[1..])
    ensures IsSpace(s[0]) ==> s[0] == ' ' && (|s| == 1 || !IsSpace(s[1]))
  {
    var tail := s[1..];
    forall j, k | 0 <= j < k < |tail| && k == j + 1
      ensures !(IsSpace(tail[j]) && IsSpace(tail[k]))
    {
      assert tail[j] == s[j + 1] && tail[k] == s[k + 1];
    }
    forall k | 0 <= k < |tail| && IsSpace(tail[k])
      ensures tail[k] == ' '
    {
      assert tail[k] == s[k + 1];
    }
    if |s| > 1 {
      assert !(IsSpace(s[0]) && IsSpace(s[1]));
    }
  }

  /** Text already in collapsed form is a fixed point of the collapse. */
  lemma {:induction false} CollapseFixesSingleSpaced(s: string)
    requires SingleSpaced(s)
    ensures Collapse(s) == s
    decreases |s|
  {
    if s != [] {
      var tail := s[1..];
      SingleSpacedTail(s);
      CollapseFixesSingleSpaced(tail);
      CollapseShape(tail);
      if IsSpace(s[0]) {
        assert tail == [] || !IsSpace(tail[0]);
        assert TrimStart(s) == tail;
        assert Collapse(s) == [' '] + Collapse(tail);
      } else {
        assert Collapse(s) == [s[0]] + Collapse(tail);
      }
      assert s == [s[0]] + tail;
    }
  }

  /** Trimming the front of text that ends in a non-whitespace character stops
      inside it: whatever follows is kept whole. */
  lemma {:induction false} TrimStartAppend(a: string, b: string)
    requires a != [] && !IsSpace(a[|a| - 1])
    ensures TrimStart(a + b) == TrimStart(a) + b
    decreases |a|
  {
    assert (a + b)[0] == a[0];
    if IsSpace(a[0]) {
      assert (a + b)[1..] == a[1..] + b;
      TrimStartAppend(a[1..], b);
    }
  }

  /** Text that ends in a non-whitespace character collapses on its own, whatever
      follows it: no whitespace run reaches across the boundary. */
  lemma {:induction false} CollapseAppend(a: string, b: string)
    requires a == [] || !IsSpace(a[|a| - 1])
    ensures Collapse(a + b) == Collapse(a) + Collapse(b)
    decreases |a|
  {
    if a == [] {
      assert a + b == b;
    } else if IsSpace(a[0]) {
      var t := LeadingSpaceStep(a, b);
      CollapseAppend(t, b);
      ConcatAssoc(" ", Collapse(t), Collapse(b));
    } else {
      CharStep(a, b);
      CollapseAppend(a[1..], b);
      ConcatAssoc([a[0]], Collapse(a[1..]), Collapse(b));
    }
  }

  /** One step of `CollapseAppend` over a leading whitespace run of `a`. */
  lemma LeadingSpaceStep(a: string, b: string) returns (t: string)
    requires a != [] && IsSpace(a[0]) && !IsSpace(a[|a| - 1])
    ensures t == TrimStart(a) && |t| < |a| && (t == [] || !IsSpace(t[|t| - 1]))
    ensures Collapse(a) == " " + Collapse(t)
    ensures Collapse(a + b) == " " + Collapse(t + b)
  {
    t := TrimStart(a);
    TrimStartFacts(a);
    TrimStartAppend(a, b);
    assert (a + b)[0] == a[0];
    assert TrimStart(a) == TrimStart(a[1..]);
    assert t != [] ==> t[|t| - 1] == a[|a| - 1];
  }

  /** One step of `CollapseAppend` over a first character that is not whitespace. */
  lemma CharStep(a: string, b: string)
    requires a != [] && !IsSpace(a[0])
    ensures Collapse(a) == [a[0]] + Collapse(a[1..])
    ensures Collapse(a + b) == [a[0]] + Collapse(a[1..] + b)
  {
    assert (a + b)[0] == a[0];
    assert (a + b)[1..] == a[1..] + b;
  }

  /** An interior whitespace run, however long and whatever whitespace characters
      it holds, becomes exactly one plain space between the collapsed text on
      either side of it. */
  lemma CollapseInteriorRun(x: string, w: string, y: string)
    requires x == [] || !IsSpace(x[|x| - 1])
    requires w != [] && AllSpace(w)
    requires y == [] || !IsSpace(y[0])
    ensures Collapse(x + w + y) == Collapse(x) + " " + Collapse(y)
  {
    CollapseAppend(x, w + y);
    CollapseLeadingRun(w, y);
    ConcatAssoc(x, w, y);
    ConcatAssoc(Collapse(x), " ", Collapse(y));
  }

  lemma ConcatAssoc(a: string, b: string, c: string)
    ensures a + b + c == a + (b + c)
  {
  }

  /** A leading whitespace run becomes one plain space. */
  lemma CollapseLeadingRun(w: string, y: string)
    requires w != [] && AllSpace(w)
    requires y == [] || !IsSpace(y[0])
    ensures Collapse(w + y) == " " + Collapse(y)
  {
    assert (w + y)[0] == w[0];
    TrimStartSpaces(w, y);
  }

  /** The title clean-up of the list page: inner texts joined with one space,
      trimmed, and whitespace runs collapsed. */
  function Normalise(parts: seq<string>): (r: string)
    ensures |r| <= |Join(parts, " ")|
  {
    Collapse(Trim(Join(parts, " ")))
  }

  /** Collapsed text holds no line terminator: every whitespace left is a plain space. */
  lemma SingleSpacedLineFree(s: string)
    requires SingleSpaced(s)
    ensures LineFree(s)
  {
    forall k | 0 <= k < |s|
      ensures !IsLineTerminator(s[k])
    {
      if IsLineTerminator(s[k]) {
        assert IsSpace(s[k]);
      }
    }
  }

  /** A normalised title has no whitespace at either end, only single plain spaces
      inside, no line terminator at all, and the same non-whitespace characters in
      the same order as the joined inner texts. Normalising again changes nothing. */
  lemma NormaliseShape(parts: seq<string>)
    ensures NoEdgeSpace(Normalise(parts))
    ensures SingleSpaced(Normalise(parts))
    ensures LineFree(Normalise(parts))
    ensures Strip(Normalise(parts)) == Strip(Join(parts, " "))
    ensures Collapse(Trim(Normalise(parts))) == Normalise(parts)
  {
    var j := Join(parts, " ");
    var t := Trim(j);
    var r := Collapse(t);
    CollapseShape(t);
    assert r == Normalise(parts);
    StripTrim(j);
    SingleSpacedLineFree(r);
    TrimFixesTrimmed(r);
    CollapseFixesSingleSpaced(r);
  }

  /** Joining parts that are not empty starts with the first part's first character
      and ends with the last part's last character. */
  lemma {:induction false} JoinEdges(parts: seq<string>, sep: string)
    requires parts != []
    requires forall k :: 0 <= k < |parts| ==> parts[k] != []
    ensures Join(parts, sep) != []
    ensures Join(parts, sep)[0] == parts[0][0]
    ensures Join(parts, sep)[|Join(parts, sep)| - 1] == parts[|parts| - 1][|parts[|parts| - 1]| - 1]
    decreases |parts|
  {
    if |parts| > 1 {
      var rest := parts[1..];
      assert forall k :: 0 <= k < |rest| ==> rest[k] == parts[k + 1];
      JoinEdges(rest, sep);
      var j := Join(rest, sep);
      assert Join(parts, sep) == parts[0] + sep + j;
      assert (parts[0] + sep + j)[0] == parts[0][0];
      assert (parts[0] + sep + j)[|parts[0] + sep + j| - 1] == j[|j| - 1];
    }
  }

  /** Each part collapsed on its own, in order. */
  function CollapseEach(parts: seq<string>): (r: seq<string>)
    ensures |r| == |parts|
    ensures forall k :: 0 <= k < |parts| ==> r[k] == Collapse(parts[k])
  {
    if parts == [] then []
    else
      var rest := CollapseEach(parts[1..]);
      assert forall k :: 1 <= k < |parts| ==> parts[k] == parts[1..][k - 1];
      [Collapse(parts[0])] + rest
  }

  /** Parts without edge whitespace, joined with one space, collapse part by part:
      the joining space stays a single space between them. */
  lemma {:induction false} CollapseJoin(parts: seq<string>)
    requires forall k :: 0 <= k < |parts| ==> parts[k] != [] && NoEdgeSpace(parts[k])
    ensures Collapse(Join(parts, " ")) == Join(CollapseEach(parts), " ")
    decreases |parts|
  {
    if |parts| > 1 {
      var rest := parts[1..];
      assert forall k :: 0 <= k < |rest| ==> rest[k] == parts[k + 1];
      CollapseJoin(rest);
      JoinEdges(rest, " ");
      var j := Join(rest, " ");
      assert Join(parts, " ") == parts[0] + " " + j;
      CollapseInteriorRun(parts[0], " ", j);
      var c := CollapseEach(parts);
      assert c[1..] == CollapseEach(rest);
      assert Join(c, " ") == c[0] + " " + Join(c[1..], " ");
    }
  }

  /** Inner texts that are not empty and have no edge whitespace of their own are
      cleaned one by one and joined with exactly one space: a title split over
      several elements reads with one space where the elements meet. */
  lemma NormaliseCleanParts(parts: seq<string>)
    requires forall k :: 0 <= k < |parts| ==> parts[k] != [] && NoEdgeSpace(parts[k])
    ensures Normalise(parts) == Join(CollapseEach(parts), " ")
  {
    JoinNoEdgeSpace(parts);
    TrimFixesTrimmed(Join(parts, " "));
    CollapseJoin(parts);
  }

  lemma JoinNoEdgeSpace(parts: seq<string>)
    requires forall k :: 0 <= k < |parts| ==> parts[k] != [] && NoEdgeSpace(parts[k])
    ensures NoEdgeSpace(Join(parts, " "))
  {
    if parts != [] {
      JoinEdges(parts, " ");
      assert NoEdgeSpace(parts[0]) && NoEdgeSpace(parts[|parts| - 1]);
    }
  }

  /** Inside one inner text, a whitespace run between two words, a line break
      included, becomes exactly one space in the cleaned title. */
  lemma NormaliseInteriorRun(x: string, w: string, y: string)
    requires x != [] && y != [] && NoEdgeSpace(x) && NoEdgeSpace(y)
    requires w != [] && AllSpace(w)
    ensures Normalise([x + w + y]) == Collapse(x) + " " + Collapse(y)
  {
    var p := x + w + y;
    assert Join([p], " ") == p;
    assert p[0] == x[0] && p[|p| - 1] == y[|y| - 1];
    TrimFixesTrimmed(p);
    CollapseInteriorRun(x, w, y);
  }
}
