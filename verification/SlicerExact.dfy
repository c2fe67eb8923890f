/**
What a slice is, said of the source lines alone: which lines are clauses, sections, comments
and blanks, which lines survive a slice, and which names it reports missing.
 */
module SlicerExact {
  import opened Options
  import opened Slicer
  import PromText

  // ------------------------------------------------------------- the lines the script recognises

  ghost predicate IsWord(w: string) {
    w != [] && forall i | 0 <= i < |w| ::
      w[i] == '_' || '0' <= w[i] <= '9' || 'a' <= w[i] <= 'z' || 'A' <= w[i] <= 'Z'
  }

  // The line opens the clause named w.
  ghost predicate OpensClause(line: string, w: string) {
    && IsWord(w)
    && (PromText.StartsWith(line, "invariant [" + w + "]") || PromText.StartsWith(line, "safety [" + w + "]"))
  }

  lemma {:induction false} WordPrefixIs(s: string, w: string)
    ensures WordPrefix(s) == w <==>
            && PromText.StartsWith(s, w) && (forall i | 0 <= i < |w| :: IsWordChar(w[i]))
            && (|s| == |w| || !IsWordChar(s[|w|]))
  {
    if s != [] && IsWordChar(s[0]) {
      if w == [] {
      } else {
        WordPrefixIs(s[1..], w[1..]);
        assert WordPrefix(s) == [s[0]] + WordPrefix(s[1..]);
        assert w == [w[0]] + w[1..];
        if PromText.StartsWith(s, w) { assert s[0] == w[0] && s[1..][..|w| - 1] == w[1..]; }
        if s[0] == w[0] && PromText.StartsWith(s[1..], w[1..]) { assert s[..|w|] == [s[0]] + s[1..][..|w| - 1]; }
        assert forall i | 0 < i < |w| :: w[i] == w[1..][i - 1];
      }
    }
  }

  lemma BracketedIs(s: string, w: string)
    ensures Bracketed(s) == Some(w) <==> IsWord(w) && PromText.StartsWith(s, w + "]")
  {
    WordPrefixIs(s, w);
    if PromText.StartsWith(s, w + "]") {
      assert s[|w|] == (w + "]")[|w|] == ']' && s[..|w|] == (w + "]")[..|w|];
    }
    if PromText.StartsWith(s, w) && |w| < |s| && s[|w|] == ']' { assert s[..|w| + 1] == s[..|w|] + "]"; }
  }

  lemma PrefixThen(line: string, p: string, q: string)
    ensures PromText.StartsWith(line, p + q) <==> PromText.StartsWith(line, p) && PromText.StartsWith(line[|p|..], q)
  {
    if |p| + |q| <= |line| {
      assert line[..|p| + |q|] == line[..|p|] + line[|p|..][..|q|];
      if PromText.StartsWith(line, p + q) {
        assert line[..|p|] == (p + q)[..|p|] && line[|p|..][..|q|] == (p + q)[|p|..];
      }
    }
  }

  lemma ClauseIs(line: string, w: string)
    ensures KindOf(line) == Block(w) <==> OpensClause(line, w)
  {
    PrefixThen(line, "invariant [", w + "]");
    PrefixThen(line, "safety [", w + "]");
    assert "invariant [" + (w + "]") == "invariant [" + w + "]" && "safety [" + (w + "]") == "safety [" + w + "]";
    if PromText.StartsWith(line, "invariant [") {
      BracketedIs(line[11..], w);
      assert line[0] == 'i';
      Differs(line, "safety [", 0);
    } else if PromText.StartsWith(line, "safety [") {
      BracketedIs(line[8..], w);
    }
  }

  lemma Heads(line: string, p: string)
    requires PromText.StartsWith(line, p) && |p| >= 2
    ensures |line| >= 2 && line[0] == p[0] && line[1] == p[1]
  {
    assert line[0] == line[..|p|][0] && line[1] == line[..|p|][1];
  }

  // A line that begins with neither word opens no clause.
  lemma NoClause(line: string)
    requires |line| >= 2 ==> !(line[0] == 'i' && line[1] == 'n') && !(line[0] == 's' && line[1] == 'a')
    ensures !KindOf(line).Block?
  {
    if PromText.StartsWith(line, "invariant [") { Heads(line, "invariant ["); }
    if PromText.StartsWith(line, "safety [") { Heads(line, "safety ["); }
  }

  lemma {:induction false} StripLeftIs(s: string)
    ensures PromText.StripLeft(s) == [] <==> PromText.IsWhite(s)
    ensures PromText.StripLeft(s) != [] ==> !PromText.IsSpace(PromText.StripLeft(s)[0])
  {
    if s != [] && PromText.IsSpace(s[0]) {
      StripLeftIs(s[1..]);
      assert s == [s[0]] + s[1..];
    }
  }

  lemma {:induction false} StripRightIs(s: string)
    ensures PromText.StripRight(s) == [] <==> PromText.IsWhite(s)
  {
    if s != [] && PromText.IsSpace(s[|s| - 1]) {
      StripRightIs(s[..|s| - 1]);
      assert s == s[..|s| - 1] + [s[|s| - 1]];
    }
  }

  lemma StripIs(s: string)
    ensures PromText.Strip(s) == [] <==> PromText.IsWhite(s)
  {
    StripLeftIs(s);
    StripRightIs(PromText.StripLeft(s));
  }

  // The lines that begin with one of the script's other prefixes are just those of its kinds.
  lemma PrefixKinds(line: string)
    ensures KindOf(line) == Module <==> PromText.StartsWith(line, "veil module ")
    ensures KindOf(line) == Timeout <==> PromText.StartsWith(line, "set_option veil.smt.timeout")
    ensures KindOf(line) == Check <==>
            PromText.StartsWith(line, "#check_invariants") || PromText.StartsWith(line, "#check_action")
    ensures KindOf(line) == Comment <==> PromText.StartsWith(line, "--")
  {
    if PromText.StartsWith(line, "veil module ") {
      Heads(line, "veil module ");
      NoClause(line);
    } else if PromText.StartsWith(line, "set_option veil.smt.timeout") {
      Heads(line, "set_option veil.smt.timeout");
      NoClause(line);
    } else if |line| >= 2 && line[0] == '#' && line[1] == 'c' {
      NoClause(line);
    } else if PromText.StartsWith(line, "--") {
      Heads(line, "--");
      NoClause(line);
      NoHash(line);
    } else {
      NoHash(line);
    }
    if PromText.StartsWith(line, "#check_invariants") { Heads(line, "#check_invariants"); }
    if PromText.StartsWith(line, "#check_action") { Heads(line, "#check_action"); }
  }

  lemma NoHash(line: string)
    requires |line| >= 2 ==> line[0] != '#' || line[1] != 'c'
    ensures !PromText.StartsWith(line, "#check_invariants") && !PromText.StartsWith(line, "#check_action")
    ensures !PromText.StartsWith(line, "#check")
    ensures |line| >= 2 && line[0] != '#' ==> !PromText.StartsWith(line, "#gen_spec")
  {
    if PromText.StartsWith(line, "#check_invariants") { Heads(line, "#check_invariants"); }
    if PromText.StartsWith(line, "#check_action") { Heads(line, "#check_action"); }
    if PromText.StartsWith(line, "#check") { Heads(line, "#check"); }
    if PromText.StartsWith(line, "#gen_spec") { Heads(line, "#gen_spec"); }
  }

  lemma CheckIsHash(line: string)
    ensures PromText.StartsWith(line, "#check_invariants") || PromText.StartsWith(line, "#check_action") ==>
            PromText.StartsWith(line, "#check")
  {
    PrefixThen(line, "#check", "_invariants");
    PrefixThen(line, "#check", "_action");
    assert "#check" + "_invariants" == "#check_invariants" && "#check" + "_action" == "#check_action";
  }

  // MAIN RESULT.  What ends a block is exactly a clause line or a line that begins with #gen_spec or #check; what is
  // trimmed from a block's end is exactly the comment lines and the lines of white space.
  lemma KindsAreExact(line: string)
    ensures Ends(KindOf(line)) <==>
            || (exists w :: OpensClause(line, w))
            || PromText.StartsWith(line, "#gen_spec") || PromText.StartsWith(line, "#check")
    ensures Trails(KindOf(line)) <==> PromText.StartsWith(line, "--") || PromText.IsWhite(line)
  {
    if KindOf(line).Block? {
      ClauseIs(line, KindOf(line).name);
    } else {
      forall w ensures !OpensClause(line, w) { ClauseIs(line, w); }
    }
    if PromText.StartsWith(line, "#gen_spec") { Heads(line, "#gen_spec"); }
    if PromText.StartsWith(line, "#check") { Heads(line, "#check"); }
    if |line| >= 2 && line[0] == '#' {
      NoClause(line);
      HashKinds(line);
    } else {
      CheckIsHash(line);
      PrefixKinds(line);
    }
    BlankIs(line);
    PrefixKinds(line);
  }

  lemma HashKinds(line: string)
    requires |line| >= 2 && line[0] == '#'
    ensures Ends(KindOf(line)) <==> PromText.StartsWith(line, "#gen_spec") || PromText.StartsWith(line, "#check")
  {
    NoClause(line);
    CheckIsHash(line);
    PrefixKinds(line);
    if PromText.StartsWith(line, "veil module ") { Heads(line, "veil module "); }
    if PromText.StartsWith(line, "set_option veil.smt.timeout") { Heads(line, "set_option veil.smt.timeout"); }
  }

  lemma BlankIs(line: string)
    ensures KindOf(line) == Blank <==> PromText.IsWhite(line)
  {
    StripIs(line);
    if PromText.IsWhite(line) {
      assert line != [] ==> PromText.IsSpace(line[0]);
      NoClause(line);
      PrefixKinds(line);
      NoHash(line);
      if PromText.StartsWith(line, "veil module ") { Heads(line, "veil module "); }
      if PromText.StartsWith(line, "set_option veil.smt.timeout") { Heads(line, "set_option veil.smt.timeout"); }
      if PromText.StartsWith(line, "#gen_spec") { Heads(line, "#gen_spec"); }
      if PromText.StartsWith(line, "--") { Heads(line, "--"); }
    }
  }

  // ------------------------------------------------------------- which lines survive

  // Line q opens the clause that line p belongs to.
  ghost predicate Owns(kind: string -> Kind, lines: seq<string>, q: nat, p: nat) {
    q <= p < |lines| && kind(lines[q]).Block? && forall r | q < r <= p :: !Ends(kind(lines[r]))
  }

  // Line p, or one after it in the same clause, is neither a comment nor blank.
  ghost predicate HasMore(kind: string -> Kind, lines: seq<string>, p: nat) {
    exists r: nat :: LeadsTo(kind, lines, p, r)
  }

  ghost predicate LeadsTo(kind: string -> Kind, lines: seq<string>, p: nat, r: nat) {
    p <= r < |lines| && !Trails(kind(lines[r])) && forall u | p < u <= r :: !Ends(kind(lines[u]))
  }

  // A clause's line survives if its clause is kept and the line is not part of its trailing comments and blanks;
  // any other line unless it is a comment beyond the first 901 lines.
  ghost predicate Survives(kind: string -> Kind, keep: set<string>, lines: seq<string>, p: nat)
    requires p < |lines|
  {
    if q: nat :| Owns(kind, lines, q, p) then kind(lines[q]).name in keep && HasMore(kind, lines, p)
    else p <= 900 || !kind(lines[p]).Comment?
  }

  // A module, timeout or check line outside the clauses is replaced; every other line is copied.
  ghost function Copied(kind: string -> Kind, a: Args, lines: seq<string>, p: nat): string
    requires p < |lines|
  {
    if exists q: nat :: Owns(kind, lines, q, p) then lines[p]
    else match kind(lines[p])
      case Module => a.moduleLine
      case Timeout => a.timeoutLine
      case Check => a.checkLine
      case _ => lines[p]
  }

  // The surviving lines from p up to q, in order.
  ghost function Selected(kind: string -> Kind, a: Args, keep: set<string>, lines: seq<string>, p: nat, q: nat)
    : seq<string>
    requires p <= q <= |lines|
    decreases q - p
  {
    if p == q then []
    else
      (if Survives(kind, keep, lines, p) then [Copied(kind, a, lines, p)] else [])
      + Selected(kind, a, keep, lines, p + 1, q)
  }

  lemma {:induction false} SelectedConcat(kind: string -> Kind, a: Args, keep: set<string>, lines: seq<string>,
                                          p: nat, q: nat, r: nat)
    requires p <= q <= r <= |lines|
    ensures Selected(kind, a, keep, lines, p, r) ==
            Selected(kind, a, keep, lines, p, q) + Selected(kind, a, keep, lines, q, r)
    decreases q - p
  {
    if p < q { SelectedConcat(kind, a, keep, lines, p + 1, q, r); }
  }

  // A line belongs to one clause only.
  lemma OneOwner(kind: string -> Kind, lines: seq<string>, q: nat, q': nat, p: nat)
    requires Owns(kind, lines, q, p) && Owns(kind, lines, q', p)
    ensures q == q'
  {
    if q < q' { assert Ends(kind(lines[q'])); }
    if q' < q { assert Ends(kind(lines[q])); }
  }

  lemma OwnedSurvives(kind: string -> Kind, a: Args, keep: set<string>, lines: seq<string>, q: nat, p: nat)
    requires Owns(kind, lines, q, p)
    ensures Survives(kind, keep, lines, p) <==> kind(lines[q]).name in keep && HasMore(kind, lines, p)
    ensures Copied(kind, a, lines, p) == lines[p]
  {
    forall q': nat | Owns(kind, lines, q', p) ensures q' == q { OneOwner(kind, lines, q, q', p); }
  }

  // Nothing before p reaches over it.
  ghost predicate Free(kind: string -> Kind, lines: seq<string>, p: nat) {
    forall q: nat | q < p :: !Owns(kind, lines, q, p)
  }

  lemma {:induction false} TrimIs(kind: string -> Kind, body: seq<string>)
    ensures var m := |Trim(kind, body)|;
            && m <= |body| && Trim(kind, body) == body[..m] && (m > 0 ==> !Trails(kind(body[m - 1])))
            && forall i | m <= i < |body| :: Trails(kind(body[i]))
  {
    if body != [] && Trails(kind(body[|body| - 1])) { TrimIs(kind, body[..|body| - 1]); }
  }

  lemma {:induction false} NoneSelected(kind: string -> Kind, a: Args, keep: set<string>, lines: seq<string>,
                                        p: nat, q: nat)
    requires p <= q <= |lines| && forall i | p <= i < q :: !Survives(kind, keep, lines, i)
    ensures Selected(kind, a, keep, lines, p, q) == []
    decreases q - p
  {
    if p < q { NoneSelected(kind, a, keep, lines, p + 1, q); }
  }

  lemma {:induction false} AllSelected(kind: string -> Kind, a: Args, keep: set<string>, lines: seq<string>,
                                       p: nat, q: nat)
    requires p <= q <= |lines|
    requires forall i | p <= i < q :: Survives(kind, keep, lines, i) && Copied(kind, a, lines, i) == lines[i]
    ensures Selected(kind, a, keep, lines, p, q) == lines[p..q]
    decreases q - p
  {
    if p < q {
      AllSelected(kind, a, keep, lines, p + 1, q);
      assert lines[p..q] == [lines[p]] + lines[p + 1..q];
    }
  }

  // In a clause from q to e, the lines up to m survive when it is kept.
  lemma ClauseSelected(kind: string -> Kind, a: Args, keep: set<string>, lines: seq<string>, q: nat, e: nat, m: nat)
    requires IsClause(kind, lines, q, e) && q < m <= e && !Trails(kind(lines[m - 1]))
    requires forall i | m <= i < e :: Trails(kind(lines[i]))
    ensures Selected(kind, a, keep, lines, q, e) == if kind(lines[q]).name in keep then lines[q..m] else []
  {
    forall i | q <= i < e
      ensures Survives(kind, keep, lines, i) <==> kind(lines[q]).name in keep && i < m
      ensures Copied(kind, a, lines, i) == lines[i]
    {
      ClauseLine(kind, a, keep, lines, q, e, m, i);
    }
    if kind(lines[q]).name in keep {
      SelectedConcat(kind, a, keep, lines, q, m, e);
      AllSelected(kind, a, keep, lines, q, m);
      NoneSelected(kind, a, keep, lines, m, e);
    } else {
      NoneSelected(kind, a, keep, lines, q, e);
    }
  }

  lemma ClauseLine(kind: string -> Kind, a: Args, keep: set<string>, lines: seq<string>,
                   q: nat, e: nat, m: nat, p: nat)
    requires IsClause(kind, lines, q, e) && q < m <= e && !Trails(kind(lines[m - 1])) && q <= p < e
    requires forall i | m <= i < e :: Trails(kind(lines[i]))
    ensures Survives(kind, keep, lines, p) <==> kind(lines[q]).name in keep && p < m
    ensures Copied(kind, a, lines, p) == lines[p]
  {
    assert Owns(kind, lines, q, p);
    OwnedSurvives(kind, a, keep, lines, q, p);
    ClauseHasMore(kind, lines, q, e, m, p);
  }

  // Line q opens a clause that ends before line e.
  ghost predicate IsClause(kind: string -> Kind, lines: seq<string>, q: nat, e: nat) {
    && q < e <= |lines| && kind(lines[q]).Block? && (forall r | q < r < e :: !Ends(kind(lines[r])))
    && (e < |lines| ==> Ends(kind(lines[e])))
  }

  lemma ClauseHasMore(kind: string -> Kind, lines: seq<string>, q: nat, e: nat, m: nat, p: nat)
    requires IsClause(kind, lines, q, e) && q < m <= e && !Trails(kind(lines[m - 1])) && q <= p < e
    requires forall i | m <= i < e :: Trails(kind(lines[i]))
    ensures HasMore(kind, lines, p) <==> p < m
  {
    if p < m { assert LeadsTo(kind, lines, p, m - 1); }
    forall r: nat ensures p >= m ==> !LeadsTo(kind, lines, p, r) {}
  }

  lemma RunIsClause(kind: string -> Kind, lines: seq<string>, q: nat, e: nat)
    requires q < e <= |lines| && kind(lines[q]).Block? && e - (q + 1) == RunLength(kind, lines[q + 1..])
    ensures IsClause(kind, lines, q, e) && (e < |lines| ==> Free(kind, lines, e))
  {
    var rest := lines[q + 1..];
    RunLengthIs(kind, rest);
    forall r | q < r < e ensures !Ends(kind(lines[r])) { assert lines[r] == rest[r - q - 1]; }
    if e < |lines| { assert lines[e] == rest[e - q - 1]; }
  }

  lemma ClauseWritten(kind: string -> Kind, a: Args, keep: set<string>, lines: seq<string>, q: nat, e: nat)
    requires IsClause(kind, lines, q, e)
    ensures Selected(kind, a, keep, lines, q, e) ==
            Text(kind, a, keep, Clause(kind(lines[q]).name, lines[q..e]), q)
  {
    var body := lines[q..e];
    TrimIs(kind, body);
    var m := q + |Trim(kind, body)|;
    assert forall i | 0 <= i < |body| :: body[i] == lines[q + i];
    assert body[0] == lines[q];
    forall i | m <= i < e ensures Trails(kind(lines[i])) { assert lines[i] == body[i - q]; }
    ClauseSelected(kind, a, keep, lines, q, e, m);
    assert lines[q..m] == body[..m - q];
  }

  lemma PlainWritten(kind: string -> Kind, a: Args, keep: set<string>, lines: seq<string>, p: nat)
    requires p < |lines| && Free(kind, lines, p) && !kind(lines[p]).Block?
    ensures Selected(kind, a, keep, lines, p, p + 1) == Rewrite(kind, a, lines[p], p)
    ensures p + 1 < |lines| ==> Free(kind, lines, p + 1)
  {
    forall q: nat ensures !Owns(kind, lines, q, p) {}
    var next := p + 1;
    forall q: nat | q < next ensures !Owns(kind, lines, q, next) {
      assert q < p && Owns(kind, lines, q, next) ==> Owns(kind, lines, q, p);
    }
    assert Selected(kind, a, keep, lines, p + 1, p + 1) == [];
  }

  lemma {:induction false} EmitSelects(kind: string -> Kind, a: Args, keep: set<string>, lines: seq<string>, p: nat)
    requires p <= |lines| && (p < |lines| ==> Free(kind, lines, p))
    ensures Emit(Writer(kind, a, keep), Items(kind, lines[p..]), p) == Selected(kind, a, keep, lines, p, |lines|)
    decreases |lines| - p
  {
    if p == |lines| {
      assert lines[p..] == [];
    } else if kind(lines[p]).Block? {
      var e := ClauseEnd(kind, lines, p);
      RunIsClause(kind, lines, p, e);
      EmitSelects(kind, a, keep, lines, e);
      EmitClause(kind, a, keep, lines, p, e);
    } else {
      PlainWritten(kind, a, keep, lines, p);
      EmitSelects(kind, a, keep, lines, p + 1);
      EmitPlain(kind, a, keep, lines, p);
    }
  }

  lemma ClauseEnd(kind: string -> Kind, lines: seq<string>, p: nat) returns (e: nat)
    requires p < |lines|
    ensures p < e <= |lines| && e - (p + 1) == RunLength(kind, lines[p + 1..])
  {
    RunLengthIs(kind, lines[p + 1..]);
    e := p + 1 + RunLength(kind, lines[p + 1..]);
  }

  lemma EmitClause(kind: string -> Kind, a: Args, keep: set<string>, lines: seq<string>, p: nat, e: nat)
    requires p < e <= |lines| && kind(lines[p]).Block? && e - (p + 1) == RunLength(kind, lines[p + 1..])
    requires Emit(Writer(kind, a, keep), Items(kind, lines[e..]), e) == Selected(kind, a, keep, lines, e, |lines|)
    ensures Emit(Writer(kind, a, keep), Items(kind, lines[p..]), p) == Selected(kind, a, keep, lines, p, |lines|)
  {
    RunIsClause(kind, lines, p, e);
    ClauseWritten(kind, a, keep, lines, p, e);
    ClauseAt(kind, lines, p, e);
    EmitItem(kind, a, keep, lines, p, e, Clause(kind(lines[p]).name, lines[p..e]), Items(kind, lines[e..]));
  }

  lemma EmitPlain(kind: string -> Kind, a: Args, keep: set<string>, lines: seq<string>, p: nat)
    requires p < |lines| && Free(kind, lines, p) && !kind(lines[p]).Block?
    requires Emit(Writer(kind, a, keep), Items(kind, lines[p + 1..]), p + 1) ==
             Selected(kind, a, keep, lines, p + 1, |lines|)
    ensures Emit(Writer(kind, a, keep), Items(kind, lines[p..]), p) == Selected(kind, a, keep, lines, p, |lines|)
  {
    PlainWritten(kind, a, keep, lines, p);
    PlainAt(kind, lines, p);
    EmitItem(kind, a, keep, lines, p, p + 1, Plain(lines[p]), Items(kind, lines[p + 1..]));
  }

  // An item that is written as the lines it covers survive, before items that are.
  lemma EmitItem(kind: string -> Kind, a: Args, keep: set<string>, lines: seq<string>, p: nat, e: nat,
                 item: Item, rest: seq<Item>)
    requires p <= e <= |lines| && Size(item) == e - p
    requires Text(kind, a, keep, item, p) == Selected(kind, a, keep, lines, p, e)
    requires Emit(Writer(kind, a, keep), rest, e) == Selected(kind, a, keep, lines, e, |lines|)
    ensures Emit(Writer(kind, a, keep), [item] + rest, p) == Selected(kind, a, keep, lines, p, |lines|)
  {
    EmitFirst(kind, a, keep, item, rest, p);
    SelectedConcat(kind, a, keep, lines, p, e, |lines|);
  }

  lemma EmitFirst(kind: string -> Kind, a: Args, keep: set<string>, item: Item, rest: seq<Item>, p: nat)
    ensures Emit(Writer(kind, a, keep), [item] + rest, p) ==
            Text(kind, a, keep, item, p) + Emit(Writer(kind, a, keep), rest, p + Size(item))
  {
    assert ([item] + rest)[1..] == rest;
  }

  // ------------------------------------------------------------- which names are found

  ghost function OpenedNames(kind: string -> Kind, lines: seq<string>): set<string> {
    set p | 0 <= p < |lines| && kind(lines[p]).Block? :: kind(lines[p]).name
  }

  lemma {:induction false} NamesAreOpened(kind: string -> Kind, lines: seq<string>)
    ensures Names(Blocks(kind, Items(kind, lines))) == OpenedNames(kind, lines)
    decreases |lines|
  {
    if lines != [] {
      var n := if kind(lines[0]).Block? then BlockLength(kind, lines) else 1;
      NamesAreOpened(kind, lines[n..]);
      if kind(lines[0]).Block? {
        RunIsClause(kind, lines, 0, n);
        NamesHead(kind, Clause(kind(lines[0]).name, lines[..n]), Items(kind, lines[n..]));
      } else {
        NamesHead(kind, Plain(lines[0]), Items(kind, lines[1..]));
      }
      OpenedFrom(kind, lines, n);
    }
  }

  lemma OpenedFrom(kind: string -> Kind, lines: seq<string>, n: nat)
    requires 0 < n <= |lines| && forall r | 0 < r < n :: !kind(lines[r]).Block?
    ensures OpenedNames(kind, lines) ==
            (if kind(lines[0]).Block? then {kind(lines[0]).name} else {}) + OpenedNames(kind, lines[n..])
  {
    var rest := lines[n..];
    assert forall p | 0 <= p < |rest| :: rest[p] == lines[n + p];
    forall p | 0 <= p < |lines| && kind(lines[p]).Block?
      ensures p == 0 || kind(lines[p]).name in OpenedNames(kind, rest)
    {
      if p >= n { assert rest[p - n] == lines[p]; }
    }
  }

  // MAIN RESULT.  A slice is the surviving lines of the source, in order, and it is written exactly when every name
  // asked for opens some clause; otherwise the names that open none are reported.
  lemma SliceIsExact(kind: string -> Kind, a: Args, keep: set<string>, lines: seq<string>)
    ensures MakeSpec(kind, a, keep, lines) ==
            if keep <= OpenedNames(kind, lines) then Written(Selected(kind, a, keep, lines, 0, |lines|))
            else Missing(keep - OpenedNames(kind, lines))
  {
    NamesAreOpened(kind, lines);
    assert lines[0..] == lines;
    EmitSelects(kind, a, keep, lines, 0);
    assert keep <= OpenedNames(kind, lines) <==> keep - OpenedNames(kind, lines) == {};
  }

  // In a real slice the module, timeout and check lines outside the clauses carry the arguments of the run.
  lemma ArgumentsAreWritten(mod: string, timeout: string, check: string, lines: seq<string>, p: nat)
    requires p < |lines| && forall q: nat :: !Owns(KindOf, lines, q, p)
    ensures var line, copied := lines[p], Copied(KindOf, ArgsOf(mod, timeout, check), lines, p);
            && (PromText.StartsWith(line, "veil module ") ==> copied == "veil module " + mod)
            && (PromText.StartsWith(line, "set_option veil.smt.timeout") ==>
                  copied == "set_option veil.smt.timeout " + timeout)
            && (PromText.StartsWith(line, "#check_invariants") || PromText.StartsWith(line, "#check_action") ==>
                  copied == if check == "inv" then "#check_invariants" else "#check_action " + check)
  {
    PrefixKinds(lines[p]);
  }
}
