/**
The two heading-slug rules of the documentation link checker, and the normal form
that relates them.  Headings come out of the inline-markup removal stripped of white space
at both ends.
 */
module Slugs {
  import opened PromText

  predicate IsAlnum(c: char) {
    'a' <= c <= 'z' || 'A' <= c <= 'Z' || '0' <= c <= '9'
  }

  function LowerChar(c: char): char {
    if 'A' <= c <= 'Z' then c + 32 as char else c
  }

  function Lower(s: string): string {
    if s == [] then [] else [LowerChar(s[0])] + Lower(s[1..])
  }

  // ---------------------------------------------------------------- the GitHub rule

  // Letters, digits, '_', '-' and all white space survive; everything else is dropped.
  predicate GithubKeeps(c: char) {
    IsAlnum(c) || c == '_' || c == '-' || IsSpace(c)
  }

  function KeepGithub(s: string): string {
    if s == [] then [] else (if GithubKeeps(s[0]) then [s[0]] else []) + KeepGithub(s[1..])
  }

  // Only the space itself becomes a dash.
  function SpacesToDashes(s: string): string {
    if s == [] then [] else [if s[0] == ' ' then '-' else s[0]] + SpacesToDashes(s[1..])
  }

  function SlugGithub(h: string): string {
    SpacesToDashes(KeepGithub(Lower(h)))
  }

  // ---------------------------------------------------------------- the md-tui rule

  function SkipSpaces(s: string): string {
    if s != [] && IsSpace(s[0]) then SkipSpaces(s[1..]) else s
  }

  function Word(s: string): string {
    if s == [] || IsSpace(s[0]) then [] else [s[0]] + Word(s[1..])
  }

  lemma {:induction false} SkipShortens(s: string)
    ensures |SkipSpaces(s)| <= |s| && |Word(s)| <= |s|
    ensures SkipSpaces(s) != [] ==> !IsSpace(SkipSpaces(s)[0]) && |Word(SkipSpaces(s))| >= 1
  {
    if s != [] { SkipShortens(s[1..]); }
  }

  // str.split() followed by lower() on each word.
  function LowerWords(s: string): seq<string>
    decreases |s|
  {
    SkipShortens(s);
    var t := SkipSpaces(s);
    if t == [] then []
    else SkipShortens(t); [Lower(Word(t))] + LowerWords(t[|Word(t)|..])
  }

  function JoinDash(ws: seq<string>): string {
    if ws == [] then [] else if |ws| == 1 then ws[0] else ws[0] + "-" + JoinDash(ws[1..])
  }

  function KeepMdtui(s: string): string {
    if s == [] then [] else (if IsAlnum(s[0]) || s[0] == '-' then [s[0]] else []) + KeepMdtui(s[1..])
  }

  // Runs of dashes become one dash; `after` says whether a dash was just written.
  function Collapse(s: string, after: bool): string {
    if s == [] then []
    else if s[0] != '-' then [s[0]] + Collapse(s[1..], false)
    else (if after then [] else "-") + Collapse(s[1..], true)
  }

  function DropLeading(s: string): string {
    if s != [] && s[0] == '-' then DropLeading(s[1..]) else s
  }

  function DropTrailing(s: string): string {
    if s != [] && s[|s| - 1] == '-' then DropTrailing(s[..|s| - 1]) else s
  }

  function StripDashes(s: string): string {
    DropTrailing(DropLeading(s))
  }

  function SlugMdtui(h: string): string {
    StripDashes(Collapse(KeepMdtui(JoinDash(LowerWords(h))), false))
  }

  // ----------------------------------------------------------------- the normal form

  function DropUnderscores(s: string): string {
    if s == [] then [] else (if s[0] == '_' then [] else [s[0]]) + DropUnderscores(s[1..])
  }

  // The white space the GitHub rule leaves.
  function DashSpaces(s: string): string {
    if s == [] then [] else [if IsSpace(s[0]) then '-' else s[0]] + DashSpaces(s[1..])
  }

  function Normal(g: string): string {
    StripDashes(Collapse(DashSpaces(DropUnderscores(g)), false))
  }

  predicate IsStripped(h: string) {
    h == [] || (!IsSpace(h[0]) && !IsSpace(h[|h| - 1]))
  }

  // What both rules make of a heading before dashes are tidied: the letters and digits in lower case,
  // and a dash for every dash or white space.
  function Skeleton(h: string): string {
    if h == [] then []
    else
      (if IsAlnum(h[0]) then [LowerChar(h[0])] else if h[0] == '-' || IsSpace(h[0]) then "-" else [])
      + Skeleton(h[1..])
  }

  lemma LowerIs(c: char)
    ensures IsAlnum(LowerChar(c)) == IsAlnum(c) && (!IsAlnum(c) ==> LowerChar(c) == c)
    ensures IsAlnum(c) ==> !IsSpace(c) && !IsSpace(LowerChar(c)) && LowerChar(c) != '_' && LowerChar(c) != '-'
  {
  }

  // The GitHub slug, character by character.
  lemma SlugCons(h: string)
    requires h != []
    ensures var c, rest := h[0], SlugGithub(h[1..]);
            SlugGithub(h) ==
              if GithubKeeps(c) then [if c == ' ' then '-' else LowerChar(c)] + rest else rest
  {
    var c := LowerChar(h[0]);
    LowerIs(h[0]);
    assert Lower(h)[1..] == Lower(h[1..]);
    var kept, rest := KeepGithub(Lower(h)), KeepGithub(Lower(h[1..]));
    if GithubKeeps(c) { assert kept == [c] + rest && kept[1..] == rest; } else { assert kept == rest; }
  }

  lemma {:induction false} GithubIsSkeleton(h: string)
    ensures DashSpaces(DropUnderscores(SlugGithub(h))) == Skeleton(h)
  {
    if h != [] {
      GithubIsSkeleton(h[1..]);
      SlugCons(h);
      LowerIs(h[0]);
      var rest := SlugGithub(h[1..]);
      if GithubKeeps(h[0]) {
        var c := if h[0] == ' ' then '-' else LowerChar(h[0]);
        assert SlugGithub(h) == [c] + rest;
        TidyCons(c, rest);
        SkeletonCons(h, c);
      } else {
        assert SlugGithub(h) == rest;
        assert Skeleton(h) == Skeleton(h[1..]);
      }
    }
  }

  lemma SkeletonCons(h: string, c: char)
    requires h != [] && GithubKeeps(h[0]) && c == if h[0] == ' ' then '-' else LowerChar(h[0])
    ensures Skeleton(h) == (if c == '_' then [] else [if IsSpace(c) then '-' else c]) + Skeleton(h[1..])
  {
    LowerIs(h[0]);
  }

  lemma TidyCons(c: char, rest: string)
    ensures DashSpaces(DropUnderscores([c] + rest)) ==
            (if c == '_' then [] else [if IsSpace(c) then '-' else c]) + DashSpaces(DropUnderscores(rest))
  {
    var g, d := [c] + rest, DropUnderscores(rest);
    assert g[1..] == rest && g[0] == c;
    if c == '_' {
      assert DropUnderscores(g) == d;
      assert [] + DashSpaces(d) == DashSpaces(d);
    } else {
      assert DropUnderscores(g) == [c] + d;
      DashCons(c, d);
    }
  }

  lemma DashCons(c: char, rest: string)
    ensures DashSpaces([c] + rest) == [if IsSpace(c) then '-' else c] + DashSpaces(rest)
  {
    assert ([c] + rest)[1..] == rest;
  }

  // The state a text leaves the dash collapser in.
  function EndsInDash(s: string, after: bool): bool {
    if s == [] then after else s[|s| - 1] == '-'
  }

  lemma {:induction false} CollapseConcat(s: string, t: string, after: bool)
    ensures Collapse(s + t, after) == Collapse(s, after) + Collapse(t, EndsInDash(s, after))
  {
    if s == [] {
      assert s + t == t;
    } else {
      assert (s + t)[1..] == s[1..] + t;
      CollapseConcat(s[1..], t, s[0] == '-');
      assert EndsInDash(s, after) == EndsInDash(s[1..], s[0] == '-');
    }
  }

  lemma {:induction false} SkeletonConcat(s: string, t: string)
    ensures Skeleton(s + t) == Skeleton(s) + Skeleton(t)
  {
    if s == [] {
      assert s + t == t;
    } else {
      assert (s + t)[1..] == s[1..] + t;
      SkeletonConcat(s[1..], t);
    }
  }

  lemma {:induction false} KeepConcat(s: string, t: string)
    ensures KeepMdtui(s + t) == KeepMdtui(s) + KeepMdtui(t)
  {
    if s == [] {
      assert s + t == t;
    } else {
      var kept := if IsAlnum(s[0]) || s[0] == '-' then [s[0]] else [];
      assert (s + t)[1..] == s[1..] + t && (s + t)[0] == s[0];
      KeepConcat(s[1..], t);
      assert KeepMdtui(s + t) == kept + KeepMdtui(s[1..] + t);
      assert kept + (KeepMdtui(s[1..]) + KeepMdtui(t)) == kept + KeepMdtui(s[1..]) + KeepMdtui(t);
    }
  }

  lemma {:induction false} WordIs(s: string)
    ensures Word(s) <= s && (|Word(s)| < |s| ==> IsSpace(s[|Word(s)|]))
    ensures KeepMdtui(Lower(Word(s))) == Skeleton(Word(s))
  {
    if s != [] && !IsSpace(s[0]) {
      WordIs(s[1..]);
      var w := Word(s);
      assert w[1..] == Word(s[1..]) && Lower(w)[1..] == Lower(w[1..]);
    }
  }

  // Spaces before a word collapse to one dash.
  lemma {:induction false} SpacesCollapse(s: string, after: bool)
    ensures Collapse(Skeleton(s), true) == Collapse(Skeleton(SkipSpaces(s)), true)
    ensures s != [] && IsSpace(s[0]) ==>
              Collapse(Skeleton(s), after) == Collapse("-" + Skeleton(SkipSpaces(s)), after)
  {
    if s != [] && IsSpace(s[0]) {
      SpacesCollapse(s[1..], true);
      assert Skeleton(s)[1..] == Skeleton(s[1..]);
      var d := "-" + Skeleton(SkipSpaces(s));
      assert d[1..] == Skeleton(SkipSpaces(s));
    }
  }

  lemma {:induction false} SkipKeepsEnd(s: string)
    requires s != [] && !IsSpace(s[|s| - 1])
    ensures SkipSpaces(s) != [] && !IsSpace(SkipSpaces(s)[|SkipSpaces(s)| - 1])
  {
    if IsSpace(s[0]) { SkipKeepsEnd(s[1..]); }
  }

  lemma {:induction false} SkipTwice(s: string)
    ensures SkipSpaces(SkipSpaces(s)) == SkipSpaces(s)
  {
    if s != [] && IsSpace(s[0]) { SkipTwice(s[1..]); }
  }

  lemma {:induction false} WordsJoined(t: string, after: bool)
    requires t != [] && !IsSpace(t[0]) && !IsSpace(t[|t| - 1])
    ensures Collapse(KeepMdtui(JoinDash(LowerWords(t))), after) == Collapse(Skeleton(t), after)
    decreases |t|
  {
    var w := Word(t);
    WordIs(t);
    SkipShortens(t);
    var rest := t[|w|..];
    assert t == w + rest && SkipSpaces(t) == t;
    var lw := Lower(w);
    if rest == [] {
      assert LowerWords(rest) == [];
      assert LowerWords(t) == [lw];
      assert t == w;
    } else {
      SkipKeepsEnd(rest);
      SkipTwice(rest);
      SkipShortens(rest);
      var next := SkipSpaces(rest);
      assert LowerWords(rest) == LowerWords(next) != [];
      WordsJoined(next, true);
      JoinedWords(lw, next, w, rest, after);
    }
  }

  // One word, a gap and the rest, read by both rules.
  lemma JoinedWords(lw: string, next: string, w: string, rest: string, after: bool)
    requires KeepMdtui(lw) == Skeleton(w) && rest != [] && IsSpace(rest[0])
    requires next == SkipSpaces(rest) && LowerWords(next) != []
    requires Collapse(KeepMdtui(JoinDash(LowerWords(next))), true) == Collapse(Skeleton(next), true)
    ensures Collapse(KeepMdtui(JoinDash([lw] + LowerWords(next))), after) == Collapse(Skeleton(w + rest), after)
  {
    var tail := JoinDash(LowerWords(next));
    assert JoinDash([lw] + LowerWords(next)) == lw + ("-" + tail) by {
      assert ([lw] + LowerWords(next))[1..] == LowerWords(next);
    }
    KeepConcat(lw, "-" + tail);
    KeepConcat("-", tail);
    CollapseConcat(Skeleton(w), "-" + KeepMdtui(tail), after);
    SkeletonConcat(w, rest);
    CollapseConcat(Skeleton(w), Skeleton(rest), after);
    SpacesCollapse(rest, EndsInDash(Skeleton(w), after));
    assert ("-" + KeepMdtui(tail))[1..] == KeepMdtui(tail) && ("-" + Skeleton(next))[1..] == Skeleton(next);
  }

  // MAIN RESULT.  The md-tui slug of a heading is the normal form of its GitHub slug: underscores
  // dropped, left-over white space turned into dashes, dash runs collapsed, edge dashes stripped.
  lemma MdtuiIsNormalGithub(h: string)
    requires IsStripped(h)
    ensures SlugMdtui(h) == Normal(SlugGithub(h))
  {
    GithubIsSkeleton(h);
    if h != [] { WordsJoined(h, false); }
  }

  // What the GitHub rule makes of one character.
  function GithubChar(c: char): string {
    if 'A' <= c <= 'Z' then ["abcdefghijklmnopqrstuvwxyz"[c as int - 65]]
    else if 'a' <= c <= 'z' || '0' <= c <= '9' || c == '_' || c == '-' then [c]
    else if c == ' ' then "-"
    else if IsSpace(c) then [c]
    else []
  }

  function OnePass(h: string): string {
    if h == [] then [] else GithubChar(h[0]) + OnePass(h[1..])
  }

  lemma Alphabet(k: nat)
    requires k < 26
    ensures "abcdefghijklmnopqrstuvwxyz"[k] == ('A' as int + k + 32) as char
  {
  }

  // The three passes of the GitHub rule come to one, character by character.
  lemma {:induction false} GithubIsOnePass(h: string)
    ensures SlugGithub(h) == OnePass(h)
  {
    if h != [] {
      GithubIsOnePass(h[1..]);
      SlugCons(h);
      if 'A' <= h[0] <= 'Z' { Alphabet(h[0] as int - 65); }
    }
  }

  // --------------------------------------------------------- when the two rules agree

  ghost predicate NoDoubleDash(s: string) {
    forall i | 0 <= i < |s| - 1 :: s[i] != '-' || s[i + 1] != '-'
  }

  ghost predicate NoEdgeDash(s: string) {
    s == [] || (s[0] != '-' && s[|s| - 1] != '-')
  }

  lemma TailNoDoubleDash(s: string)
    requires s != [] && NoDoubleDash(s)
    ensures NoDoubleDash(s[1..]) && (|s| > 1 && s[0] == '-' ==> s[1] != '-')
  {
    var t := s[1..];
    forall i | 0 <= i < |t| - 1 ensures t[i] != '-' || t[i + 1] != '-' {
      assert t[i] == s[i + 1] && t[i + 1] == s[i + 1 + 1];
    }
    assert |s| > 1 ==> s[0] != '-' || s[0 + 1] != '-';
  }

  // No white space, which in a GitHub slug means none but spaces in the heading.
  ghost predicate NoSpace(s: string) {
    forall i | 0 <= i < |s| :: !IsSpace(s[i])
  }

  lemma {:induction false} CollapseIs(s: string, after: bool)
    ensures NoDoubleDash(Collapse(s, after)) && (after && Collapse(s, after) != [] ==> Collapse(s, after)[0] != '-')
    ensures ('_' !in s ==> '_' !in Collapse(s, after)) && (NoSpace(s) ==> NoSpace(Collapse(s, after)))
    ensures NoDoubleDash(s) && (after && s != [] ==> s[0] != '-') ==> Collapse(s, after) == s
  {
    if s != [] {
      CollapseIs(s[1..], s[0] == '-');
      if NoDoubleDash(s) {
        TailNoDoubleDash(s);
        assert s == [s[0]] + s[1..];
      }
    }
  }

  lemma {:induction false} DashSpacesIs(s: string)
    ensures NoSpace(DashSpaces(s)) && ('_' !in s ==> '_' !in DashSpaces(s)) && (NoSpace(s) ==> DashSpaces(s) == s)
  {
    if s != [] {
      DashSpacesIs(s[1..]);
      assert s == [s[0]] + s[1..];
    }
  }

  lemma {:induction false} DropUnderscoresIs(s: string)
    ensures '_' !in DropUnderscores(s) && ('_' !in s ==> DropUnderscores(s) == s)
  {
    if s != [] { DropUnderscoresIs(s[1..]); }
  }

  lemma {:induction false} DropLeadingIs(s: string)
    ensures var r := DropLeading(s);
            && (r != [] ==> r[0] != '-') && (NoDoubleDash(s) ==> NoDoubleDash(r))
            && ('_' !in s ==> '_' !in r) && (NoSpace(s) ==> NoSpace(r))
  {
    if s != [] && s[0] == '-' {
      DropLeadingIs(s[1..]);
      if NoDoubleDash(s) { TailNoDoubleDash(s); }
    }
  }

  lemma {:induction false} DropTrailingIs(s: string)
    requires s != [] ==> s[0] != '-'
    ensures var r := DropTrailing(s);
            && NoEdgeDash(r) && (NoDoubleDash(s) ==> NoDoubleDash(r))
            && ('_' !in s ==> '_' !in r) && (NoSpace(s) ==> NoSpace(r))
  {
    if s != [] && s[|s| - 1] == '-' {
      DropTrailingIs(s[..|s| - 1]);
    }
  }

  // The features the two rules treat differently, all absent.
  ghost predicate IsPlain(g: string) {
    '_' !in g && NoSpace(g) && NoDoubleDash(g) && NoEdgeDash(g)
  }

  // A normal form has none of the four features, and a text without them is its own normal form.
  lemma NormalIs(g: string)
    ensures IsPlain(Normal(g)) && (IsPlain(g) ==> Normal(g) == g)
  {
    DropUnderscoresIs(g);
    DashSpacesIs(DropUnderscores(g));
    var d := DashSpaces(DropUnderscores(g));
    CollapseIs(d, false);
    DropLeadingIs(Collapse(d, false));
    DropTrailingIs(DropLeading(Collapse(d, false)));
  }

  ghost predicate OnlySpaces(h: string) {
    forall i | 0 <= i < |h| :: IsSpace(h[i]) ==> h[i] == ' '
  }

  lemma SpacesCons(s: string)
    requires s != []
    ensures NoSpace(s) <==> !IsSpace(s[0]) && NoSpace(s[1..])
    ensures OnlySpaces(s) <==> (IsSpace(s[0]) ==> s[0] == ' ') && OnlySpaces(s[1..])
  {
    assert s == [s[0]] + s[1..];
    assert forall i | 0 < i < |s| :: s[i] == s[1..][i - 1];
  }

  // The GitHub slug keeps white space exactly when the heading has some other than the space.
  lemma {:induction false} GithubSpaces(h: string)
    ensures NoSpace(SlugGithub(h)) <==> OnlySpaces(h)
  {
    if h != [] {
      var t := h[1..];
      GithubSpaces(t);
      SlugCons(h);
      LowerIs(h[0]);
      SpacesCons(h);
      if GithubKeeps(h[0]) {
        SpacesCons(SlugGithub(h));
        assert SlugGithub(h)[1..] == SlugGithub(t);
      }
    }
  }

  // MAIN RESULT.  The two renderers reach a heading under the same anchor exactly when the heading has no white
  // space but spaces and its GitHub slug has no underscore, no double dash and no dash at either end.
  lemma SlugsAgreeIff(h: string)
    requires IsStripped(h)
    ensures SlugMdtui(h) == SlugGithub(h) <==>
            OnlySpaces(h) && var g := SlugGithub(h); '_' !in g && NoDoubleDash(g) && NoEdgeDash(g)
  {
    MdtuiIsNormalGithub(h);
    NormalIs(SlugGithub(h));
    GithubSpaces(h);
  }

  datatype Cause = DropsUnderscore | CollapsesDashes | SlugsDifferently

  function MdtuiCause(anchor: string): Cause {
    if '_' in anchor then DropsUnderscore
    else if exists i | 0 <= i < |anchor| - 1 :: anchor[i] == '-' && anchor[i + 1] == '-' then CollapsesDashes
    else SlugsDifferently
  }

  // Of the anchors their own heading does not keep, the warning's catch-all cause is given exactly to those that
  // have neither an underscore nor a double dash; each of them has an edge dash or left-over white space.
  lemma CatchAllIff(h: string)
    requires IsStripped(h)
    ensures var g := SlugGithub(h);
            SlugMdtui(h) != g && MdtuiCause(g) == SlugsDifferently <==>
              '_' !in g && NoDoubleDash(g) && (!NoEdgeDash(g) || !OnlySpaces(h))
  {
    SlugsAgreeIff(h);
  }

  // The cause given for an anchor that md-tui cannot reach: a dropped underscore where there is one, else a collapsed
  // dash run where there is one, else the catch-all.
  lemma CauseIs(anchor: string)
    ensures MdtuiCause(anchor) == DropsUnderscore <==> '_' in anchor
    ensures MdtuiCause(anchor) == CollapsesDashes <==> '_' !in anchor && !NoDoubleDash(anchor)
  {
  }

  // A tab stays in the one anchor and splits the other, with no dash at its edges.
  lemma TabHeading()
    ensures SlugGithub("a\tb") == "a\tb" && SlugMdtui("a\tb") == "a-b"
    ensures MdtuiCause(SlugGithub("a\tb")) == SlugsDifferently && NoEdgeDash(SlugGithub("a\tb"))
  {
    ThreeHeading('a', '\t', 'b');
  }

  // The same for any two lower-case letters with white space other than the space between them.
  lemma ThreeHeading(a: char, b: char, c: char)
    requires 'a' <= a <= 'z' && 'a' <= c <= 'z' && IsSpace(b) && b != ' '
    ensures var h := [a, b, c];
            && SlugGithub(h) == h && SlugMdtui(h) == [a, '-', c]
            && MdtuiCause(h) == SlugsDifferently && NoEdgeDash(h)
  {
    SlugOfThree(a, b, c);
    MdtuiIsNormalGithub([a, b, c]);
    NormalOfThree(a, b, c);
  }

  lemma SlugOfThree(a: char, b: char, c: char)
    requires forall x | x in [a, b, c] :: LowerChar(x) == x && GithubKeeps(x) && x != ' '
    ensures SlugGithub([a, b, c]) == [a, b, c]
  {
    var h := [a, b, c];
    assert h[1..] == [b, c] && [b, c][1..] == [c] && [c][1..] == [];
    assert a in h && b in h && c in h;
    SlugCons(h);
    SlugCons([b, c]);
    SlugCons([c]);
  }

  lemma NormalOfThree(a: char, b: char, c: char)
    requires IsAlnum(a) && IsSpace(b) && b != '_' && IsAlnum(c)
    ensures Normal([a, b, c]) == [a, '-', c]
  {
    var g, d := [a, b, c], [a, '-', c];
    LowerIs(a);
    LowerIs(c);
    DropUnderscoresIs(g);
    DashCons(c, []);
    DashCons(b, [c]);
    DashCons(a, [b, c]);
    assert [c] + [] == [c] && [b] + [c] == [b, c] && [a] + [b, c] == g;
    assert DashSpaces([c]) == [c] && DashSpaces([b, c]) == ['-', c] && DashSpaces(g) == d;
    CollapseIs(d, false);
  }
}
