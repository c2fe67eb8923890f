/**
Whole-paragraph single-star emphasis in a Markdown document, as the link checker
finds it: a scan over lines with a code-fence flag.
 */
module Emphasis {
  import opened PromText

  // ------------------------------------------------------------------- line classes

  // What the scan asks of a line: is it a fence, is it blank, does it start with a lone star (not a bold
  // marker, not a list bullet), does it end with a lone star.
  datatype Line = Line(fence: bool, blank: bool, opens: bool, closes: bool)

  function Classify(text: string): Line {
    var s, r := Strip(text), StripRight(text);
    Line(StartsWith(s, "```"), s == [],
         StartsWith(s, "*") && !StartsWith(s, "**") && !StartsWith(s, "* "),
         EndsWith(r, "*") && !EndsWith(r, "**"))
  }

  // A document, one entry a line; a line that opens is not blank.
  type Doc = d: seq<Line> | forall i | 0 <= i < |d| :: d[i].opens ==> !d[i].blank

  function ClassifyAll(texts: seq<string>): Doc {
    seq(|texts|, i requires 0 <= i < |texts| => Classify(texts[i]))
  }

  // The first, and the last, character of the text that is not white space.
  ghost predicate BeginsAt(text: string, n: nat) {
    n < |text| && !IsSpace(text[n]) && IsWhite(text[..n])
  }

  ghost predicate EndsAt(text: string, m: nat) {
    m < |text| && !IsSpace(text[m]) && IsWhite(text[m + 1..])
  }

  lemma {:induction false} StripLeftAt(text: string, n: nat)
    requires n <= |text| && IsWhite(text[..n]) && (n < |text| ==> !IsSpace(text[n]))
    ensures StripLeft(text) == text[n..]
  {
    if n == 0 {
      assert text[0..] == text;
    } else {
      assert text[..n][0] == text[0] && text[1..][..n - 1] == text[..n][1..] && text[1..][n - 1..] == text[n..];
      StripLeftAt(text[1..], n - 1);
    }
  }

  lemma {:induction false} StripRightAt(text: string, m: nat)
    requires m <= |text| && IsWhite(text[m..]) && (m > 0 ==> !IsSpace(text[m - 1]))
    ensures StripRight(text) == text[..m]
  {
    if m == |text| {
      assert text[..m] == text;
    } else {
      var init := text[..|text| - 1];
      assert text[m..][|text| - 1 - m] == text[|text| - 1] && init[m..] == text[m..][..|text| - 1 - m];
      StripRightAt(init, m);
      assert init[..m] == text[..m];
    }
  }

  lemma {:induction false} HasEnds(text: string) returns (n: nat, m: nat)
    requires !IsWhite(text)
    ensures BeginsAt(text, n) && EndsAt(text, m) && n <= m
  {
    n := 0;
    while IsSpace(text[n])
      invariant n < |text| && IsWhite(text[..n])
      decreases |text| - n
    {
      assert text[..n + 1] == text[..n] + [text[n]];
      n := n + 1;
    }
    m := |text| - 1;
    while IsSpace(text[m])
      invariant n <= m < |text| && IsWhite(text[m + 1..])
      decreases m
    {
      assert text[m..] == [text[m]] + text[m + 1..];
      m := m - 1;
    }
  }

  // Where a text begins and ends is one place each.
  lemma OneBegin(text: string, n: nat, k: nat)
    requires BeginsAt(text, n) && BeginsAt(text, k)
    ensures n == k
  {
    assert forall i | 0 <= i < k :: text[..k][i] == text[i];
    assert forall i | 0 <= i < n :: text[..n][i] == text[i];
  }

  lemma OneEnd(text: string, m: nat, k: nat)
    requires EndsAt(text, m) && EndsAt(text, k)
    ensures m == k
  {
    assert forall i | m < i < |text| :: text[i] == text[m + 1..][i - m - 1];
    assert forall i | k < i < |text| :: text[i] == text[k + 1..][i - k - 1];
  }

  // A lone star: not followed by a second one, nor by a space and more text.
  ghost predicate LoneStarAt(text: string, n: nat)
    requires n < |text|
  {
    && text[n] == '*'
    && (n + 1 < |text| ==> text[n + 1] != '*' && (text[n + 1] == ' ' ==> IsWhite(text[n + 1..])))
  }

  // What each class of line is, said of its text: a fence begins with three backticks, a blank line is white space, an
  // opening line begins with a lone star and a closing line ends with one.
  lemma ClassesAre(text: string)
    ensures var c := Classify(text);
            && (c.blank <==> IsWhite(text))
            && (c.fence <==> exists n: nat :: BeginsAt(text, n) && StartsWith(text[n..], "```"))
            && (c.opens <==> exists n: nat :: BeginsAt(text, n) && LoneStarAt(text, n))
            && (c.closes <==> exists m: nat :: EndsAt(text, m) && text[m] == '*' && (m > 0 ==> text[m - 1] != '*'))
  {
    if IsWhite(text) {
      StripLeftAt(text, |text|);
      StripRightAt(text, 0);
      assert text[|text|..] == [] && text[..0] == [] && text[0..] == text && text[..|text|] == text;
    } else {
      var n, m := HasEnds(text);
      BeginClasses(text, n, m);
      EndClasses(text, m);
      forall k: nat | BeginsAt(text, k) ensures k == n { OneBegin(text, n, k); }
      forall k: nat | EndsAt(text, k) ensures k == m { OneEnd(text, m, k); }
    }
  }

  lemma StrippedIs(text: string, n: nat, m: nat)
    requires BeginsAt(text, n) && EndsAt(text, m) && n <= m
    ensures Strip(text) == text[n..m + 1] != []
  {
    StripLeftAt(text, n);
    assert text[n..][m + 1 - n..] == text[m + 1..] && text[n..][m - n] == text[m];
    StripRightAt(text[n..], m + 1 - n);
    assert text[n..][..m + 1 - n] == text[n..m + 1];
  }

  lemma BeginClasses(text: string, n: nat, m: nat)
    requires BeginsAt(text, n) && EndsAt(text, m) && n <= m
    ensures !Classify(text).blank
    ensures Classify(text).fence <==> StartsWith(text[n..], "```")
    ensures Classify(text).opens <==> LoneStarAt(text, n)
  {
    StrippedIs(text, n, m);
    var s := text[n..m + 1];
    assert forall i | m < i < |text| :: text[i] == text[m + 1..][i - m - 1];
    if StartsWith(text[n..], "```") {
      assert text[n..][..3][2] == text[n + 2] == '`' && !IsSpace('`');
      assert s[..3] == text[n..][..3];
    }
    if StartsWith(s, "```") { assert s[..3] == text[n..][..3]; }
    assert s[0] == text[n];
    assert StartsWith(s, "*") <==> s[0] == '*' by { assert s[..1] == [s[0]]; }
    if |s| >= 2 {
      assert s[..2] == [s[0], s[1]] && s[1] == text[n + 1] && text[n + 1..][m - n - 1] == text[m];
    }
  }

  lemma EndClasses(text: string, m: nat)
    requires EndsAt(text, m)
    ensures Classify(text).closes <==> text[m] == '*' && (m > 0 ==> text[m - 1] != '*')
  {
    StripRightAt(text, m + 1);
    var r := text[..m + 1];
    assert r[m..] == [text[m]];
    if m > 0 { assert r[m - 1..] == [text[m - 1], text[m]]; }
  }

  // ---------------------------------------------------------------------- the scan

  // The scan of one paragraph from line j: where it stops, and whether it met a closing line.
  function Paragraph(lines: Doc, j: nat): (nat, bool)
    decreases |lines| - j
  {
    if j >= |lines| || lines[j].blank then (j, false)
    else if lines[j].closes then (j + 1, true)
    else Paragraph(lines, j + 1)
  }

  lemma {:induction false} ParagraphIs(lines: Doc, j: nat)
    requires j <= |lines|
    ensures var (end, closed) := Paragraph(lines, j);
            && j <= end <= |lines|
            && (j < |lines| && !lines[j].blank ==> j < end)
            && (forall k | j <= k < end :: !lines[k].blank)
            && (closed ==> j < end && lines[end - 1].closes && forall k | j <= k < end - 1 :: !lines[k].closes)
            && (!closed ==> (end == |lines| || lines[end].blank) && forall k | j <= k < end :: !lines[k].closes)
    decreases |lines| - j
  {
    if j < |lines| && !lines[j].blank && !lines[j].closes { ParagraphIs(lines, j + 1); }
  }

  // A block's first and last line, 1-based and inclusive.
  type Range = (nat, nat)

  // The blocks found from line i on, with the fence flag as the scan has it.
  function Blocks(lines: Doc, i: nat, fenced: bool): seq<Range>
    requires i <= |lines|
    decreases |lines| - i
  {
    if i == |lines| then []
    else if lines[i].fence then Blocks(lines, i + 1, !fenced)
    else if fenced || !lines[i].opens then Blocks(lines, i + 1, fenced)
    else
      ParagraphIs(lines, i);
      var (end, closed) := Paragraph(lines, i);
      (if closed then [(i + 1, end)] else []) + Blocks(lines, end, fenced)
  }

  method ScanParagraph(lines: Doc, i: nat) returns (j: nat, closed: bool)
    requires i < |lines|
    ensures (j, closed) == Paragraph(lines, i)
  {
    j, closed := i, false;
    while j < |lines| && !lines[j].blank
      invariant i <= j <= |lines| && !closed
      invariant Paragraph(lines, i) == Paragraph(lines, j)
    {
      j := j + 1;
      if lines[j - 1].closes {
        closed := true;
        break;
      }
    }
  }

  method ItalicBlocks(lines: Doc) returns (out: seq<Range>)
    ensures out == Blocks(lines, 0, false)
  {
    out := [];
    var i, fenced := 0, false;
    while i < |lines|
      invariant 0 <= i <= |lines|
      invariant out + Blocks(lines, i, fenced) == Blocks(lines, 0, false)
      decreases |lines| - i
    {
      if lines[i].fence {
        fenced := !fenced;
        i := i + 1;
      } else if fenced || !lines[i].opens {
        i := i + 1;
      } else {
        ParagraphIs(lines, i);
        var j, closed := ScanParagraph(lines, i);
        var block: seq<Range> := if closed then [(i + 1, j)] else [];
        assert out + (block + Blocks(lines, j, fenced)) == (out + block) + Blocks(lines, j, fenced);
        out := out + block;
        i := if j > i + 1 then j else i + 1;
      }
    }
  }

  // ----------------------------------------------------------- what the blocks are

  // The block opens with a lone star, closes at its first closing line, and holds no blank line.
  ghost predicate IsBlock(lines: Doc, r: Range) {
    && 1 <= r.0 <= r.1 <= |lines|
    && lines[r.0 - 1].opens && lines[r.1 - 1].closes
    && (forall k | r.0 - 1 <= k < r.1 :: !lines[k].blank)
    && (forall k | r.0 - 1 <= k < r.1 - 1 :: !lines[k].closes)
  }

  // Well-formed blocks after line i, strictly increasing and pairwise disjoint.
  ghost predicate AreBlocks(lines: Doc, rs: seq<Range>, i: nat) {
    && (forall k | 0 <= k < |rs| :: IsBlock(lines, rs[k]) && rs[k].0 > i)
    && (forall k, l | 0 <= k < l < |rs| :: rs[k].1 < rs[l].0)
  }

  // MAIN RESULT.  The blocks are strictly increasing, pairwise disjoint line ranges, each well formed.
  lemma {:induction false} BlocksAreWellFormed(lines: Doc, i: nat, fenced: bool)
    requires i <= |lines|
    ensures AreBlocks(lines, Blocks(lines, i, fenced), i)
    decreases |lines| - i
  {
    if i == |lines| {
    } else if lines[i].fence {
      BlocksAreWellFormed(lines, i + 1, !fenced);
      BlocksFromEarlier(lines, Blocks(lines, i + 1, !fenced), i, i + 1);
    } else if fenced || !lines[i].opens {
      BlocksAreWellFormed(lines, i + 1, fenced);
      BlocksFromEarlier(lines, Blocks(lines, i + 1, fenced), i, i + 1);
    } else {
      ParagraphIs(lines, i);
      var (end, closed) := Paragraph(lines, i);
      var rest := Blocks(lines, end, fenced);
      BlocksAreWellFormed(lines, end, fenced);
      if closed {
        BlocksCons(lines, (i + 1, end), rest, i);
      } else {
        BlocksFromEarlier(lines, rest, i, end);
        assert [] + rest == rest;
      }
    }
  }

  lemma BlocksFromEarlier(lines: Doc, rs: seq<Range>, i: nat, j: nat)
    requires AreBlocks(lines, rs, j) && i <= j
    ensures AreBlocks(lines, rs, i)
  {
  }

  lemma BlocksCons(lines: Doc, r: Range, rest: seq<Range>, i: nat)
    requires IsBlock(lines, r) && r.0 == i + 1 && AreBlocks(lines, rest, r.1)
    ensures AreBlocks(lines, [r] + rest, i)
  {
    var rs := [r] + rest;
    forall k | 0 <= k < |rs| ensures IsBlock(lines, rs[k]) && rs[k].0 > i && (k > 0 ==> r.1 < rs[k].0) {
      if k > 0 { assert rs[k] == rest[k - 1]; }
    }
    forall k, l | 0 <= k < l < |rs| ensures rs[k].1 < rs[l].0 {
      if k > 0 { assert rs[k] == rest[k - 1] && rs[l] == rest[l - 1]; }
    }
  }

  // ------------------------------------------------------- the same said of the document

  // Lines p to q are one stretch without a blank line, and none before q closes.
  predicate Within(lines: Doc, p: nat, q: nat) {
    && p <= q < |lines| && (forall m | p <= m <= q :: !lines[m].blank)
    && (forall m | p <= m < q :: !lines[m].closes)
  }

  // A star paragraph begins at p: a lone star, not inside an earlier star paragraph, with an even number of
  // fence lines before it that are not inside one either.
  predicate Begins(lines: Doc, p: nat)
    requires p < |lines|
    decreases p, 1
  {
    lines[p].opens && !lines[p].fence && !Covered(lines, p) && Visible(lines, p) % 2 == 0
  }

  // Line q goes on a star paragraph: the line before begins or goes on one and does not close it, and q is
  // not blank.
  predicate Covered(lines: Doc, q: nat)
    requires q <= |lines|
    decreases q, 0
  {
    && 0 < q < |lines| && !lines[q].blank && !lines[q - 1].closes
    && (Begins(lines, q - 1) || Covered(lines, q - 1))
  }

  // The fence lines before i outside star paragraphs, and those inside them.
  function Visible(lines: Doc, i: nat): nat
    requires i <= |lines|
    decreases i, 0
  {
    if i == 0 then 0
    else Visible(lines, i - 1) + if lines[i - 1].fence && !Covered(lines, i - 1) then 1 else 0
  }

  function Hidden(lines: Doc, i: nat): nat
    requires i <= |lines|
  {
    if i == 0 then 0 else Hidden(lines, i - 1) + if lines[i - 1].fence && Covered(lines, i - 1) then 1 else 0
  }

  // A block is to be reported from its first line's star paragraph to the line that closes it.
  ghost predicate Reported(lines: Doc, r: Range) {
    1 <= r.0 <= r.1 <= |lines| && Begins(lines, r.0 - 1) && Within(lines, r.0 - 1, r.1 - 1) && lines[r.1 - 1].closes
  }

  // Between paragraphs the scan stands outside them all, and its flag is the parity of the visible fences.
  ghost predicate AtRest(lines: Doc, i: nat, fenced: bool) {
    i <= |lines| && !Covered(lines, i) && fenced == (Visible(lines, i) % 2 == 1)
  }

  lemma {:induction false} CoversItsLines(lines: Doc, p: nat, q: nat)
    requires p < q < |lines| && Begins(lines, p) && Within(lines, p, q)
    ensures Covered(lines, q)
    decreases q
  {
    if p < q - 1 { CoversItsLines(lines, p, q - 1); }
  }

  // A star paragraph hides the fences on its lines.
  lemma {:induction false} HidesItsFences(lines: Doc, p: nat, end: nat)
    requires p < end <= |lines| && Begins(lines, p) && forall k | p <= k < end :: Within(lines, p, k)
    ensures Visible(lines, end) == Visible(lines, p)
    decreases end
  {
    if p < end - 1 {
      CoversItsLines(lines, p, end - 1);
      HidesItsFences(lines, p, end - 1);
    }
  }

  lemma ParagraphRests(lines: Doc, i: nat, fenced: bool)
    requires i < |lines| && AtRest(lines, i, fenced) && Begins(lines, i)
    ensures var (end, closed) := Paragraph(lines, i);
            && i < end && AtRest(lines, end, fenced)
            && (forall k | i <= k < end :: Within(lines, i, k))
            && (forall q: nat | Within(lines, i, q) :: q < end) && (closed <==> lines[end - 1].closes)
  {
    ParagraphIs(lines, i);
    var (end, closed) := Paragraph(lines, i);
    HidesItsFences(lines, i, end);
  }

  // MAIN RESULT.  From any resting point the scan reports exactly the blocks the document has from there on.
  lemma {:induction false} ScanIsExact(lines: Doc, i: nat, fenced: bool, r: Range)
    requires AtRest(lines, i, fenced)
    ensures r in Blocks(lines, i, fenced) <==> Reported(lines, r) && i < r.0
    decreases |lines| - i
  {
    if i == |lines| {
    } else if lines[i].fence || fenced || !lines[i].opens {
      ScanIsExact(lines, i + 1, if lines[i].fence then !fenced else fenced, r);
    } else {
      ParagraphRests(lines, i, fenced);
      var (end, closed) := Paragraph(lines, i);
      ScanIsExact(lines, end, fenced, r);
      FirstOfParagraph(lines, i, end, closed, r);
    }
  }

  // Within the paragraph from i the only block is the paragraph itself, up to its first closing line.
  lemma FirstOfParagraph(lines: Doc, i: nat, end: nat, closed: bool, r: Range)
    requires i < end <= |lines| && Begins(lines, i) && (forall k | i <= k < end :: Within(lines, i, k))
    requires (forall q: nat | Within(lines, i, q) :: q < end) && (closed <==> lines[end - 1].closes)
    ensures Reported(lines, r) && i < r.0 <= end ==> closed && r == (i + 1, end)
    ensures closed ==> Reported(lines, (i + 1, end))
  {
    assert Within(lines, i, end - 1);
    if i + 1 < r.0 <= end { CoversItsLines(lines, i, r.0 - 1); }
  }

  // --------------------------------------------------------------------- code fences

  function Fences(lines: Doc, i: nat): nat
    requires i <= |lines|
  {
    if i == 0 then 0 else Fences(lines, i - 1) + if lines[i - 1].fence then 1 else 0
  }

  // Whether line i really lies inside a code fence: an odd number of fence lines comes before it.
  predicate InFence(lines: Doc, i: nat)
    requires i <= |lines|
  {
    Fences(lines, i) % 2 == 1
  }

  lemma {:induction false} FencesAreSeenOrHidden(lines: Doc, i: nat)
    requires i <= |lines|
    ensures Fences(lines, i) == Visible(lines, i) + Hidden(lines, i)
  {
    if i > 0 { FencesAreSeenOrHidden(lines, i - 1); }
  }

  // MAIN RESULT.  A reported block opens outside every code fence if and only if the star paragraphs before it
  // hide an even number of fence lines.
  lemma OutsideFenceIff(lines: Doc, r: Range)
    requires r in Blocks(lines, 0, false)
    ensures 1 <= r.0 <= |lines| && (!InFence(lines, r.0 - 1) <==> Hidden(lines, r.0 - 1) % 2 == 0)
  {
    ScanIsExact(lines, 0, false, r);
    FencesAreSeenOrHidden(lines, r.0 - 1);
  }

  // No fence line stands inside a paragraph that starts with a lone star.
  ghost predicate FencesStandApart(lines: Doc) {
    forall i, k | 0 <= i < k < |lines| && lines[i].opens && (forall m | i <= m <= k :: !lines[m].blank) ::
      !lines[k].fence
  }

  lemma {:induction false} NothingHidden(lines: Doc, i: nat)
    requires i <= |lines| && FencesStandApart(lines)
    ensures Hidden(lines, i) == 0
  {
    if i > 0 {
      NothingHidden(lines, i - 1);
      if Covered(lines, i - 1) { var p := ParagraphStart(lines, i - 1); }
    }
  }

  lemma {:induction false} ParagraphStart(lines: Doc, q: nat) returns (p: nat)
    requires q < |lines| && Covered(lines, q)
    ensures p < q && lines[p].opens && forall m | p <= m <= q :: !lines[m].blank
  {
    if Begins(lines, q - 1) { p := q - 1; } else { p := ParagraphStart(lines, q - 1); }
  }

  // In a document whose fences stand apart, every reported block opens outside every code fence.
  lemma OutsideWhenFencesStandApart(lines: Doc, r: Range)
    requires FencesStandApart(lines) && r in Blocks(lines, 0, false)
    ensures 1 <= r.0 <= |lines| && !InFence(lines, r.0 - 1)
  {
    OutsideFenceIff(lines, r);
    NothingHidden(lines, r.0 - 1);
  }

  // A fence line swallowed by an unclosed star paragraph: the block reported after it lies inside the
  // fence.  The document is `*a`, a fence, a blank line, `*b*`, a fence.
  const TEXTS: seq<string> := ["*a", "```", "", "*b*", "```"]
  const LINES: seq<Line> := [Line(false, false, true, false), Line(true, false, false, false),
                             Line(false, true, false, false), Line(false, false, true, true),
                             Line(true, false, false, false)]

  lemma PlainText(text: string)
    requires text != [] && !IsSpace(text[0]) && !IsSpace(text[|text| - 1])
    ensures Strip(text) == text == StripRight(text)
  {
  }

  // The five texts are a star paragraph that a fence line cuts short, a blank line, and a block in the fence.
  lemma StrandedTexts()
    ensures ClassifyAll(TEXTS) == LINES
  {
    var a, f, b := "*a", "```", "*b*";
    PlainText(a);
    PlainText(f);
    PlainText(b);
    assert a[..1] == "*" && a[1] == 'a' && a[1..] == "a";
    assert f[..3] == "```" && f[2..] == "`" && f[..1] == "`";
    assert b[..1] == "*" && b[1] == 'b' && b[2..] == "*" && b[1..] == "b*";
    assert Classify(a) == LINES[0] && Classify(f) == LINES[1] && Classify(b) == LINES[3];
    assert Strip("") == "" == StripRight("");
    assert Classify("") == LINES[2];
  }

  lemma StrandedLines(d: Doc)
    requires d == LINES
    ensures (4, 4) in Blocks(d, 0, false) && InFence(d, 3)
  {
    assert Paragraph(d, 2) == (2, false);
    assert Paragraph(d, 1) == (2, false);
    assert Paragraph(d, 0) == (2, false);
    assert Paragraph(d, 3) == (4, true);
    assert Blocks(d, 0, false) == Blocks(d, 2, false);
    assert Blocks(d, 2, false) == Blocks(d, 3, false);
    assert Fences(d, 1) == 0 && Fences(d, 2) == 1;
  }

  lemma StrandedBlockIsInsideAFence(d: Doc)
    requires d == ClassifyAll(TEXTS)
    ensures (4, 4) in Blocks(d, 0, false) && InFence(d, 3)
  {
    StrandedTexts();
    StrandedLines(d);
  }
}
