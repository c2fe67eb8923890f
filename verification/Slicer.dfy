/**
The invariant slicer: copies a model source with its invariant and safety blocks
cut down to a chosen set of clause names, rewriting the module, timeout and check
lines on the way.  What a line is, is decided by `KindOf`; everything else is
stated for any classifier that recognises the lines the slicer itself writes.
 */
module Slicer {
  import opened Options
  import PromText

  // The three lines one slicing run writes in place of the source's own.
  datatype Args = Args(moduleLine: string, timeoutLine: string, checkLine: string)

  datatype Outcome = Written(lines: seq<string>) | Missing(names: set<string>)

  // --------------------------------------------------------------- kinds of lines

  datatype Kind =
    | Block(name: string)   // the first line of an invariant or safety clause
    | Module | Timeout      // lines rewritten from the arguments
    | Check                 // #check_invariants or #check_action
    | Section               // another line that ends a block: #gen_spec, #check...
    | Comment | Blank | Other

  predicate IsWordChar(c: char) {
    'a' <= c <= 'z' || 'A' <= c <= 'Z' || '0' <= c <= '9' || c == '_'
  }

  function WordPrefix(s: string): string {
    if s == [] || !IsWordChar(s[0]) then [] else [s[0]] + WordPrefix(s[1..])
  }

  // A word directly followed by a closing bracket.
  function Bracketed(s: string): Option<string> {
    var w := WordPrefix(s);
    if w != [] && |w| < |s| && s[|w|] == ']' then Some(w) else None
  }

  // The clause name of a block's first line: `invariant [name]` or `safety [name]`.
  function BlockName(line: string): Option<string> {
    if PromText.StartsWith(line, "invariant [") then Bracketed(line[11..])
    else if PromText.StartsWith(line, "safety [") then Bracketed(line[8..])
    else None
  }

  function KindOf(line: string): Kind {
    if BlockName(line).Some? then Block(BlockName(line).value)
    else if PromText.StartsWith(line, "veil module ") then Module
    else if PromText.StartsWith(line, "set_option veil.smt.timeout") then Timeout
    else if PromText.StartsWith(line, "#check_invariants") || PromText.StartsWith(line, "#check_action") then Check
    else if PromText.StartsWith(line, "#gen_spec") || PromText.StartsWith(line, "#check") then Section
    else if PromText.StartsWith(line, "--") then Comment
    else if PromText.Strip(line) == [] then Blank
    else Other
  }

  // ------------------------------------------------------------------ the rewriting

  // The written lines for a module name, a solver timeout and a check command.
  function ArgsOf(mod: string, timeout: string, check: string): Args {
    Args("veil module " + mod, "set_option veil.smt.timeout " + timeout,
         if check == "inv" then "#check_invariants" else "#check_action " + check)
  }

  // A classifier recognises the lines a run writes.
  ghost predicate Lawful(kind: string -> Kind, a: Args) {
    kind(a.moduleLine) == Module && kind(a.timeoutLine) == Timeout && kind(a.checkLine) == Check
  }

  predicate Ends(k: Kind) {
    k.Block? || k.Check? || k.Section?
  }

  predicate Trails(k: Kind) {
    k.Comment? || k.Blank?
  }

  // The number of lines before the first one that ends a block.
  function RunLength(kind: string -> Kind, lines: seq<string>): nat {
    if lines == [] || Ends(kind(lines[0])) then 0 else 1 + RunLength(kind, lines[1..])
  }

  // A block's lines without the trailing comments and blanks.
  function Trim(kind: string -> Kind, body: seq<string>): seq<string> {
    if body != [] && Trails(kind(body[|body| - 1])) then Trim(kind, body[..|body| - 1]) else body
  }

  // What an ordinary line at source index `pos` becomes: one line, or none.
  function Rewrite(kind: string -> Kind, a: Args, line: string, pos: nat): seq<string> {
    match kind(line)
    case Module => [a.moduleLine]
    case Timeout => [a.timeoutLine]
    case Check => [a.checkLine]
    case Comment => if pos > 900 then [] else [line]
    case _ => [line]
  }

  lemma {:induction false} RunLengthIs(kind: string -> Kind, lines: seq<string>)
    ensures RunLength(kind, lines) <= |lines|
    ensures forall k | 0 <= k < RunLength(kind, lines) :: !Ends(kind(lines[k]))
    ensures RunLength(kind, lines) < |lines| ==> Ends(kind(lines[RunLength(kind, lines)]))
  {
    if lines != [] && !Ends(kind(lines[0])) { RunLengthIs(kind, lines[1..]); }
  }

  // The number of lines of the block that `lines` starts with.
  function BlockLength(kind: string -> Kind, lines: seq<string>): (n: nat)
    requires lines != []
    ensures 1 <= n <= |lines|
  {
    RunLengthIs(kind, lines[1..]);
    1 + RunLength(kind, lines[1..])
  }

  // The source as a list of items: ordinary lines, and named blocks with all their lines.
  datatype Item = Plain(line: string) | Clause(name: string, body: seq<string>)

  function Items(kind: string -> Kind, lines: seq<string>): seq<Item>
    decreases |lines|
  {
    if lines == [] then []
    else if kind(lines[0]).Block? then
      var n := BlockLength(kind, lines);
      [Clause(kind(lines[0]).name, lines[..n])] + Items(kind, lines[n..])
    else
      [Plain(lines[0])] + Items(kind, lines[1..])
  }

  function Size(item: Item): nat {
    match item
    case Plain(_) => 1
    case Clause(_, body) => |body|
  }

  // What an item whose first line has source index `pos` becomes.
  function Text(kind: string -> Kind, a: Args, keep: set<string>, item: Item, pos: nat): seq<string> {
    match item
    case Plain(line) => Rewrite(kind, a, line, pos)
    case Clause(name, body) => if name in keep then Trim(kind, body) else []
  }

  function Writer(kind: string -> Kind, a: Args, keep: set<string>): (Item, nat) -> seq<string> {
    (item: Item, pos: nat) => Text(kind, a, keep, item, pos)
  }

  // The items written one after the other, each at its source index.
  function Emit(text: (Item, nat) -> seq<string>, items: seq<Item>, pos: nat): seq<string> {
    if items == [] then [] else text(items[0], pos) + Emit(text, items[1..], pos + Size(items[0]))
  }

  // The blocks among the items: their names and trimmed bodies, in order.
  function Blocks(kind: string -> Kind, items: seq<Item>): seq<(string, seq<string>)> {
    if items == [] then []
    else (match items[0]
          case Plain(_) => []
          case Clause(name, body) => [(name, Trim(kind, body))]) + Blocks(kind, items[1..])
  }

  function Names(blocks: seq<(string, seq<string>)>): set<string> {
    if blocks == [] then {} else {blocks[0].0} + Names(blocks[1..])
  }

  function Only(blocks: seq<(string, seq<string>)>, keep: set<string>): seq<(string, seq<string>)> {
    if blocks == [] then []
    else if blocks[0].0 in keep then [blocks[0]] + Only(blocks[1..], keep)
    else Only(blocks[1..], keep)
  }

  function MakeSpec(kind: string -> Kind, a: Args, keep: set<string>, lines: seq<string>): Outcome {
    var items := Items(kind, lines);
    var missing := keep - Names(Blocks(kind, items));
    if missing != {} then Missing(missing) else Written(Emit(Writer(kind, a, keep), items, 0))
  }

  // -------------------------------------------------------------- the scanning loop

  method NextTerminator(kind: string -> Kind, lines: seq<string>, start: nat) returns (j: nat)
    requires start <= |lines|
    ensures start <= j <= |lines| && j - start == RunLength(kind, lines[start..])
  {
    j := start;
    while j < |lines| && !Ends(kind(lines[j]))
      invariant start <= j <= |lines|
      invariant RunLength(kind, lines[start..]) == j - start + RunLength(kind, lines[j..])
    {
      assert lines[j..][1..] == lines[j + 1..];
      j := j + 1;
    }
  }

  method TrimBody(kind: string -> Kind, lines: seq<string>) returns (body: seq<string>)
    ensures body == Trim(kind, lines)
  {
    body := lines;
    while body != [] && Trails(kind(body[|body| - 1]))
      invariant Trim(kind, body) == Trim(kind, lines)
    {
      body := body[..|body| - 1];
    }
  }

  // What is written and seen so far, and what the items left will add, make up the whole.
  ghost predicate Progress(kind: string -> Kind, text: (Item, nat) -> seq<string>, keep: set<string>, all: seq<Item>,
                           out: seq<string>, seen: set<string>, left: seq<Item>, pos: nat)
  {
    && out + Emit(text, left, pos) == Emit(text, all, 0)
    && seen + (keep * Names(Blocks(kind, left))) == keep * Names(Blocks(kind, all))
  }

  lemma Advance(kind: string -> Kind, text: (Item, nat) -> seq<string>, keep: set<string>, all: seq<Item>,
                out: seq<string>, seen: set<string>, item: Item, left: seq<Item>, pos: nat)
    requires Progress(kind, text, keep, all, out, seen, [item] + left, pos)
    ensures Progress(kind, text, keep, all, out + text(item, pos),
                     if item.Clause? && item.name in keep then seen + {item.name} else seen, left, pos + Size(item))
  {
    assert ([item] + left)[1..] == left;
    NamesHead(kind, item, left);
    Regroup(out, text(item, pos), Emit(text, left, pos + Size(item)));
  }

  lemma NamesHead(kind: string -> Kind, item: Item, left: seq<Item>)
    ensures Names(Blocks(kind, [item] + left)) == (if item.Clause? then {item.name} else {}) + Names(Blocks(kind, left))
  {
    var rest := Blocks(kind, left);
    assert ([item] + left)[1..] == left;
    match item
    case Plain(_) => assert [] + rest == rest;
    case Clause(name, body) => assert ([(name, Trim(kind, body))] + rest)[1..] == rest;
  }

  lemma Finished(kind: string -> Kind, text: (Item, nat) -> seq<string>, keep: set<string>, all: seq<Item>,
                 out: seq<string>, seen: set<string>, pos: nat)
    requires Progress(kind, text, keep, all, out, seen, [], pos)
    ensures out == Emit(text, all, 0) && keep - seen == keep - Names(Blocks(kind, all))
  {
    assert out + [] == out && Blocks(kind, []) == [] && Names([]) == {};
    assert seen == keep * Names(Blocks(kind, all));
  }

  lemma ClauseStep(kind: string -> Kind, a: Args, keep: set<string>, all: seq<Item>,
                   out: seq<string>, seen: set<string>, lines: seq<string>, i: nat, j: nat)
    requires i < j <= |lines| && kind(lines[i]).Block? && j - (i + 1) == RunLength(kind, lines[i + 1..])
    requires Progress(kind, Writer(kind, a, keep), keep, all, out, seen, Items(kind, lines[i..]), i)
    ensures var name := kind(lines[i]).name;
            Progress(kind, Writer(kind, a, keep), keep, all,
                     if name in keep then out + Trim(kind, lines[i..j]) else out,
                     if name in keep then seen + {name} else seen, Items(kind, lines[j..]), j)
  {
    ClauseAt(kind, lines, i, j);
    var item := Clause(kind(lines[i]).name, lines[i..j]);
    Advance(kind, Writer(kind, a, keep), keep, all, out, seen, item, Items(kind, lines[j..]), i);
    assert out + [] == out;
  }

  lemma LineStep(kind: string -> Kind, a: Args, keep: set<string>, all: seq<Item>,
                 out: seq<string>, seen: set<string>, lines: seq<string>, i: nat)
    requires i < |lines| && !kind(lines[i]).Block?
    requires Progress(kind, Writer(kind, a, keep), keep, all, out, seen, Items(kind, lines[i..]), i)
    ensures Progress(kind, Writer(kind, a, keep), keep, all, out + Rewrite(kind, a, lines[i], i), seen,
                     Items(kind, lines[i + 1..]), i + 1)
  {
    PlainAt(kind, lines, i);
    Advance(kind, Writer(kind, a, keep), keep, all, out, seen, Plain(lines[i]), Items(kind, lines[i + 1..]), i);
  }

  method MakeSlice(kind: string -> Kind, a: Args, keep: set<string>, lines: seq<string>) returns (r: Outcome)
    ensures r == MakeSpec(kind, a, keep, lines)
  {
    var out: seq<string>, i: nat, seen: set<string> := [], 0, {};
    ghost var all := Items(kind, lines);
    assert lines[0..] == lines && [] + Emit(Writer(kind, a, keep), all, 0) == Emit(Writer(kind, a, keep), all, 0);
    while i < |lines|
      invariant i <= |lines| && Progress(kind, Writer(kind, a, keep), keep, all, out, seen, Items(kind, lines[i..]), i)
      decreases |lines| - i
    {
      if kind(lines[i]).Block? {
        var name := kind(lines[i]).name;
        var j := NextTerminator(kind, lines, i + 1);
        var body := TrimBody(kind, lines[i..j]);
        ClauseStep(kind, a, keep, all, out, seen, lines, i, j);
        if name in keep {
          seen := seen + {name};
          out := out + body;
        }
        i := j;
      } else {
        LineStep(kind, a, keep, all, out, seen, lines, i);
        var line := WriteLine(kind, a, lines[i], i);
        out := out + line;
        i := i + 1;
      }
    }
    assert lines[i..] == [] && Items(kind, []) == [];
    Finished(kind, Writer(kind, a, keep), keep, all, out, seen, i);
    var missing := keep - seen;
    r := if missing != {} then Missing(missing) else Written(out);
  }

  lemma PlainAt(kind: string -> Kind, lines: seq<string>, i: nat)
    requires i < |lines| && !kind(lines[i]).Block?
    ensures Items(kind, lines[i..]) == [Plain(lines[i])] + Items(kind, lines[i + 1..])
  {
    assert lines[i..][1..] == lines[i + 1..];
  }

  lemma ClauseAt(kind: string -> Kind, lines: seq<string>, i: nat, j: nat)
    requires i < j <= |lines| && kind(lines[i]).Block? && j - (i + 1) == RunLength(kind, lines[i + 1..])
    ensures Items(kind, lines[i..]) == [Clause(kind(lines[i]).name, lines[i..j])] + Items(kind, lines[j..])
  {
    var tail := lines[i..];
    assert tail[1..] == lines[i + 1..];
    assert tail[..j - i] == lines[i..j] && tail[j - i..] == lines[j..];
  }

  lemma Regroup(x: seq<string>, y: seq<string>, z: seq<string>)
    ensures x + (y + z) == (x + y) + z
  {
  }

  method WriteLine(kind: string -> Kind, a: Args, line: string, pos: nat) returns (written: seq<string>)
    ensures written == Rewrite(kind, a, line, pos)
  {
    match kind(line)
    case Module => return [a.moduleLine];
    case Timeout => return [a.timeoutLine];
    case Check => return [a.checkLine];
    case Comment => return if pos > 900 then [] else [line];
    case _ => return [line];
  }

  // ------------------------------------------------------- the text after slicing

  lemma {:induction false} TrimIs(kind: string -> Kind, body: seq<string>)
    requires body != [] && !Trails(kind(body[0]))
    ensures var t := Trim(kind, body); t != [] && t <= body && Trim(kind, t) == t
  {
    if Trails(kind(body[|body| - 1])) { TrimIs(kind, body[..|body| - 1]); }
  }

  // Rewriting an already rewritten line again, at no later an index, is rewriting the source line.
  lemma RewriteTwice(kind: string -> Kind, a: Args, b: Args, line: string, pos: nat, pos': nat)
    requires Lawful(kind, a) && pos' <= pos && !kind(line).Block?
    ensures var x := Rewrite(kind, a, line, pos);
            && |x| <= 1
            && (x == [] ==> Rewrite(kind, b, line, pos) == [])
            && (x != [] ==> kind(x[0]) == kind(line) && Rewrite(kind, b, x[0], pos') == Rewrite(kind, b, line, pos))
  {
  }

  lemma {:induction false} RunOfPlain(kind: string -> Kind, plain: seq<string>, rest: seq<string>)
    requires (forall k | 0 <= k < |plain| :: !Ends(kind(plain[k]))) && (rest != [] ==> Ends(kind(rest[0])))
    ensures RunLength(kind, plain + rest) == |plain|
  {
    if plain == [] {
      assert plain + rest == rest;
    } else {
      assert (plain + rest)[1..] == plain[1..] + rest;
      RunOfPlain(kind, plain[1..], rest);
    }
  }

  // ---------------------------------------------------- items as the source has them

  // A block's first line names it and none of its other lines ends a block.
  ghost predicate ItemFits(kind: string -> Kind, item: Item) {
    match item
    case Plain(line) => !kind(line).Block?
    case Clause(name, body) =>
      body != [] && kind(body[0]) == Block(name) && forall k | 1 <= k < |body| :: !Ends(kind(body[k]))
  }

  // The item begins with a line that ends a block.
  predicate Closes(kind: string -> Kind, item: Item) {
    item.Clause? || Ends(kind(item.line))
  }

  ghost predicate Fits(kind: string -> Kind, items: seq<Item>) {
    items == [] ||
    (ItemFits(kind, items[0]) && (items[0].Clause? && |items| > 1 ==> Closes(kind, items[1])) && Fits(kind, items[1..]))
  }

  lemma {:induction false} ItemsFit(kind: string -> Kind, lines: seq<string>)
    ensures Fits(kind, Items(kind, lines))
    ensures lines != [] ==> Items(kind, lines) != [] && (Ends(kind(lines[0])) ==> Closes(kind, Items(kind, lines)[0]))
    decreases |lines|
  {
    if lines != [] {
      if kind(lines[0]).Block? {
        var n := BlockLength(kind, lines);
        ItemsFit(kind, lines[n..]);
        RunLengthIs(kind, lines[1..]);
        var rest := Items(kind, lines[n..]);
        assert ([Clause(kind(lines[0]).name, lines[..n])] + rest)[1..] == rest;
        forall k | 1 <= k < n ensures !Ends(kind(lines[..n][k])) { assert lines[..n][k] == lines[1..][k - 1]; }
      } else {
        ItemsFit(kind, lines[1..]);
        var rest := Items(kind, lines[1..]);
        assert ([Plain(lines[0])] + rest)[1..] == rest;
      }
    }
  }

  lemma {:induction false} FitsEach(kind: string -> Kind, items: seq<Item>)
    requires Fits(kind, items)
    ensures forall i | 0 <= i < |items| :: ItemFits(kind, items[i])
  {
    if items != [] {
      FitsEach(kind, items[1..]);
      assert forall i | 0 < i < |items| :: items[i] == items[1..][i - 1];
    }
  }

  // ------------------------------------------------------- the written text's items

  // An item of the first pass as the second pass finds it.
  function Again(kind: string -> Kind, a: Args, keep: set<string>, item: Item, pos: nat): seq<Item> {
    var t := Text(kind, a, keep, item, pos);
    if t == [] then []
    else match item
      case Plain(_) => [Plain(t[0])]
      case Clause(name, _) => [Clause(name, t)]
  }

  function Finder(kind: string -> Kind, a: Args, keep: set<string>): (Item, nat) -> seq<Item> {
    (item: Item, pos: nat) => Again(kind, a, keep, item, pos)
  }

  function Shrink(again: (Item, nat) -> seq<Item>, items: seq<Item>, pos: nat): seq<Item> {
    if items == [] then [] else again(items[0], pos) + Shrink(again, items[1..], pos + Size(items[0]))
  }

  lemma TextCloses(kind: string -> Kind, a: Args, keep: set<string>, item: Item, pos: nat)
    requires Lawful(kind, a) && ItemFits(kind, item) && Closes(kind, item)
    ensures var t := Text(kind, a, keep, item, pos); (t == [] ==> item.Clause?) && (t != [] ==> Ends(kind(t[0])))
  {
    match item
    case Plain(line) => RewriteTwice(kind, a, a, line, pos, pos);
    case Clause(name, body) => TrimIs(kind, body);
  }

  // After a block, what is written next ends it, or nothing is.
  lemma {:induction false} EmitCloses(kind: string -> Kind, a: Args, keep: set<string>, items: seq<Item>, pos: nat)
    requires Lawful(kind, a) && Fits(kind, items) && (items != [] ==> Closes(kind, items[0]))
    ensures var r := Emit(Writer(kind, a, keep), items, pos); r != [] ==> Ends(kind(r[0]))
  {
    if items != [] {
      TextCloses(kind, a, keep, items[0], pos);
      if items[0].Clause? { EmitCloses(kind, a, keep, items[1..], pos + Size(items[0])); }
    }
  }

  // A block's text followed by what ends it is read as that block.
  lemma BlockReadBack(kind: string -> Kind, name: string, t: seq<string>, rest: seq<string>)
    requires t != [] && kind(t[0]) == Block(name) && (forall k | 1 <= k < |t| :: !Ends(kind(t[k])))
    requires rest != [] ==> Ends(kind(rest[0]))
    ensures Items(kind, t + rest) == [Clause(name, t)] + Items(kind, rest)
  {
    assert (t + rest)[1..] == t[1..] + rest && (t + rest)[0] == t[0];
    RunOfPlain(kind, t[1..], rest);
    assert (t + rest)[..|t|] == t && (t + rest)[|t|..] == rest;
  }

  lemma LineReadBack(kind: string -> Kind, line: string, rest: seq<string>)
    requires !kind(line).Block?
    ensures Items(kind, [line] + rest) == [Plain(line)] + Items(kind, rest)
  {
    assert ([line] + rest)[1..] == rest;
  }

  ghost predicate ReadsBack(kind: string -> Kind, t: seq<string>, x: seq<Item>, rest: seq<string>) {
    Items(kind, t + rest) == x + Items(kind, rest)
  }

  // One item written before `rest` is read back before the items of `rest`.
  lemma ItemReadBack(kind: string -> Kind, a: Args, keep: set<string>, item: Item, pos: nat, rest: seq<string>)
    requires Lawful(kind, a) && ItemFits(kind, item) && (item.Clause? && rest != [] ==> Ends(kind(rest[0])))
    ensures ReadsBack(kind, Text(kind, a, keep, item, pos), Again(kind, a, keep, item, pos), rest)
  {
    var t := Text(kind, a, keep, item, pos);
    if t == [] {
      assert t + rest == rest && [] + Items(kind, rest) == Items(kind, rest);
    } else {
      match item {
        case Plain(line) =>
          RewriteTwice(kind, a, a, line, pos, pos);
          assert t == [t[0]];
          LineReadBack(kind, t[0], rest);
        case Clause(name, body) =>
          TrimIs(kind, body);
          assert forall k | 0 <= k < |t| :: t[k] == body[k];
          BlockReadBack(kind, name, t, rest);
      }
    }
  }

  // The items of what the first pass writes are its items, shrunk.
  lemma {:induction false} ItemsOfEmit(kind: string -> Kind, a: Args, keep: set<string>, items: seq<Item>, pos: nat)
    requires Lawful(kind, a) && Fits(kind, items)
    ensures Items(kind, Emit(Writer(kind, a, keep), items, pos)) == Shrink(Finder(kind, a, keep), items, pos)
  {
    if items != [] {
      var next := pos + Size(items[0]);
      var rest := Emit(Writer(kind, a, keep), items[1..], next);
      ItemsOfEmit(kind, a, keep, items[1..], next);
      assert ReadsBack(kind, Text(kind, a, keep, items[0], pos), Again(kind, a, keep, items[0], pos), rest) by {
        if items[0].Clause? { EmitCloses(kind, a, keep, items[1..], next); }
        ItemReadBack(kind, a, keep, items[0], pos, rest);
      }
      ItemsStep(kind, a, keep, items, pos, rest);
    }
  }

  lemma ItemsStep(kind: string -> Kind, a: Args, keep: set<string>, items: seq<Item>, pos: nat, rest: seq<string>)
    requires items != [] && rest == Emit(Writer(kind, a, keep), items[1..], pos + Size(items[0]))
    requires ReadsBack(kind, Text(kind, a, keep, items[0], pos), Again(kind, a, keep, items[0], pos), rest)
    requires Items(kind, rest) == Shrink(Finder(kind, a, keep), items[1..], pos + Size(items[0]))
    ensures Items(kind, Emit(Writer(kind, a, keep), items, pos)) == Shrink(Finder(kind, a, keep), items, pos)
  {
  }

  // ------------------------------------------------------- the second pass

  lemma EmitConcat(text: (Item, nat) -> seq<string>, x: seq<Item>, rest: seq<Item>, pos: nat)
    requires |x| <= 1
    ensures Emit(text, x + rest, pos) ==
            if x == [] then Emit(text, rest, pos) else text(x[0], pos) + Emit(text, rest, pos + Size(x[0]))
  {
    if x == [] {
      assert x + rest == rest;
    } else {
      assert (x + rest)[1..] == rest;
    }
  }

  lemma BlocksConcat(kind: string -> Kind, x: seq<Item>, rest: seq<Item>)
    requires |x| <= 1
    ensures Blocks(kind, x + rest) == Blocks(kind, x) + Blocks(kind, rest)
  {
    if x == [] {
      assert x + rest == rest;
    } else {
      assert (x + rest)[1..] == rest && x[1..] == [] && Blocks(kind, []) == [];
    }
  }

  // The lines at most one item takes.
  function Taken(x: seq<Item>): nat {
    if x == [] then 0 else Size(x[0])
  }

  // What is found of an item, at most one item and no larger, gets at any smaller index the text the
  // item itself would get.
  ghost predicate SameTextAt(text: (Item, nat) -> seq<string>, again: (Item, nat) -> seq<Item>,
                             item: Item, p: nat, q: nat)
  {
    q <= p ==>
      var x := again(item, p);
      |x| <= 1 && Taken(x) <= Size(item) && text(item, p) == if x == [] then [] else text(x[0], q)
  }

  ghost predicate SameText(text: (Item, nat) -> seq<string>, again: (Item, nat) -> seq<Item>, item: Item) {
    forall p: nat, q: nat :: SameTextAt(text, again, item, p, q)
  }

  lemma TextAgain(kind: string -> Kind, a: Args, b: Args, k1: set<string>, k2: set<string>, item: Item)
    requires Lawful(kind, a) && ItemFits(kind, item) && k2 <= k1
    ensures SameText(Writer(kind, b, k2), Finder(kind, a, k1), item)
  {
    forall p: nat, q: nat ensures SameTextAt(Writer(kind, b, k2), Finder(kind, a, k1), item, p, q) {
      if q <= p {
        match item {
          case Plain(line) => RewriteTwice(kind, a, b, line, p, q);
          case Clause(name, body) => TrimIs(kind, body);
        }
      }
    }
  }

  lemma {:induction false} EmitOfShrink(text: (Item, nat) -> seq<string>, again: (Item, nat) -> seq<Item>,
                                        items: seq<Item>, pos: nat, pos': nat, found: seq<Item>)
    requires (forall i | 0 <= i < |items| :: SameText(text, again, items[i]))
    requires pos' <= pos && found == Shrink(again, items, pos)
    ensures Emit(text, found, pos') == Emit(text, items, pos)
    decreases |items|
  {
    if items != [] {
      var x, next := again(items[0], pos), pos + Size(items[0]);
      var rest := Shrink(again, items[1..], next);
      assert SameText(text, again, items[0]) && SameTextAt(text, again, items[0], pos, pos');
      EmitOfShrink(text, again, items[1..], next, pos' + Taken(x), rest);
      EmitStep(text, items, pos, x, rest, pos', Emit(text, items[1..], next));
    }
  }

  lemma EmitStep(text: (Item, nat) -> seq<string>, items: seq<Item>, pos: nat, x: seq<Item>, rest: seq<Item>, pos': nat,
                 after: seq<string>)
    requires items != [] && |x| <= 1 && text(items[0], pos) == (if x == [] then [] else text(x[0], pos'))
    requires Emit(text, rest, pos' + Taken(x)) == after && Emit(text, items[1..], pos + Size(items[0])) == after
    ensures Emit(text, x + rest, pos') == Emit(text, items, pos)
  {
    EmitConcat(text, x, rest, pos');
    assert [] + after == after;
  }

  // MAIN RESULT.  Slicing by K1 and then by K2 <= K1 gives the lines that slicing by K2 gives, whatever
  // arguments either pass was run with; the second pass sees each line at an index no larger than its
  // source index, which is what the rule for late comments needs.
  lemma SlicingComposes(kind: string -> Kind, a: Args, b: Args, k1: set<string>, k2: set<string>, lines: seq<string>)
    requires Lawful(kind, a) && k2 <= k1
    ensures var first := Emit(Writer(kind, a, k1), Items(kind, lines), 0);
            Emit(Writer(kind, b, k2), Items(kind, first), 0) == Emit(Writer(kind, b, k2), Items(kind, lines), 0)
  {
    var items := Items(kind, lines);
    ItemsFit(kind, lines);
    ItemsOfEmit(kind, a, k1, items, 0);
    FitsEach(kind, items);
    forall i | 0 <= i < |items| ensures SameText(Writer(kind, b, k2), Finder(kind, a, k1), items[i]) {
      TextAgain(kind, a, b, k1, k2, items[i]);
    }
    EmitOfShrink(Writer(kind, b, k2), Finder(kind, a, k1), items, 0, 0, Shrink(Finder(kind, a, k1), items, 0));
  }

  // What is found of an item has its block if that is named.
  ghost predicate SameBlocks(kind: string -> Kind, keep: set<string>, item: Item, x: seq<Item>) {
    |x| <= 1 && Blocks(kind, x) == Only(Blocks(kind, [item]), keep)
  }

  lemma BlocksAgain(kind: string -> Kind, a: Args, keep: set<string>, item: Item, pos: nat)
    requires ItemFits(kind, item)
    ensures SameBlocks(kind, keep, item, Again(kind, a, keep, item, pos))
  {
    match item {
      case Plain(line) =>
        assert Blocks(kind, [item][1..]) == [];
      case Clause(name, body) =>
        TrimIs(kind, body);
        var t := Trim(kind, body);
        assert [item][1..] == [] && Blocks(kind, [item]) == [(name, t)] && [(name, t)][1..] == [];
        assert [Clause(name, t)][1..] == [] && Blocks(kind, [Clause(name, t)]) == [(name, t)];
    }
  }

  lemma {:induction false} BlocksOfShrink(kind: string -> Kind, again: (Item, nat) -> seq<Item>, keep: set<string>,
                                          items: seq<Item>, pos: nat, found: seq<Item>)
    requires forall i, p: nat | 0 <= i < |items| :: SameBlocks(kind, keep, items[i], again(items[i], p))
    requires found == Shrink(again, items, pos)
    ensures Blocks(kind, found) == Only(Blocks(kind, items), keep)
    decreases |items|
  {
    if items != [] {
      var x, next := again(items[0], pos), pos + Size(items[0]);
      var rest := Shrink(again, items[1..], next);
      BlocksOfShrink(kind, again, keep, items[1..], next, rest);
      assert SameBlocks(kind, keep, items[0], x);
      BlocksStep(kind, keep, items, x, rest);
    }
  }

  lemma BlocksStep(kind: string -> Kind, keep: set<string>, items: seq<Item>, x: seq<Item>, rest: seq<Item>)
    requires items != [] && SameBlocks(kind, keep, items[0], x)
    requires Blocks(kind, rest) == Only(Blocks(kind, items[1..]), keep)
    ensures Blocks(kind, x + rest) == Only(Blocks(kind, items), keep)
  {
    BlocksConcat(kind, x, rest);
    BlocksConcat(kind, [items[0]], items[1..]);
    assert items == [items[0]] + items[1..];
    OnlyConcat(Blocks(kind, [items[0]]), Blocks(kind, items[1..]), keep);
  }

  // The blocks that survive are the named ones, in order.
  lemma BlocksOfSlice(kind: string -> Kind, a: Args, keep: set<string>, lines: seq<string>)
    requires Lawful(kind, a)
    ensures var items := Items(kind, lines);
            Blocks(kind, Items(kind, Emit(Writer(kind, a, keep), items, 0))) == Only(Blocks(kind, items), keep)
  {
    var items := Items(kind, lines);
    ItemsFit(kind, lines);
    ItemsOfEmit(kind, a, keep, items, 0);
    FitsEach(kind, items);
    forall i, p: nat | 0 <= i < |items|
      ensures SameBlocks(kind, keep, items[i], Finder(kind, a, keep)(items[i], p))
    {
      BlocksAgain(kind, a, keep, items[i], p);
    }
    BlocksOfShrink(kind, Finder(kind, a, keep), keep, items, 0, Shrink(Finder(kind, a, keep), items, 0));
  }

  lemma {:induction false} OnlyConcat(x: seq<(string, seq<string>)>, y: seq<(string, seq<string>)>, keep: set<string>)
    ensures Only(x + y, keep) == Only(x, keep) + Only(y, keep)
  {
    if x == [] {
      assert x + y == y;
    } else {
      assert (x + y)[1..] == x[1..] + y;
      OnlyConcat(x[1..], y, keep);
    }
  }

  lemma {:induction false} NamesOfOnly(blocks: seq<(string, seq<string>)>, keep: set<string>)
    ensures Names(Only(blocks, keep)) == Names(blocks) * keep
  {
    if blocks != [] {
      NamesOfOnly(blocks[1..], keep);
      assert blocks[0].0 in keep ==> Only(blocks, keep)[1..] == Only(blocks[1..], keep);
    }
  }

  // MAIN RESULT.  A written slice holds exactly the named source blocks, in source order and verbatim up
  // to trailing comments and blanks; and slicing it again by any subset of its names gives exactly what
  // slicing the source by that subset gives, so slicing is idempotent.
  lemma SliceOfSlice(kind: string -> Kind, a: Args, b: Args, k1: set<string>, k2: set<string>, lines: seq<string>)
    requires Lawful(kind, a) && k2 <= k1 && MakeSpec(kind, a, k1, lines).Written?
    ensures var first := MakeSpec(kind, a, k1, lines).lines;
            && Blocks(kind, Items(kind, first)) == Only(Blocks(kind, Items(kind, lines)), k1)
            && Names(Blocks(kind, Items(kind, first))) == k1
            && MakeSpec(kind, b, k2, first) == MakeSpec(kind, b, k2, lines)
            && MakeSpec(kind, b, k2, first).Written?
            && MakeSpec(kind, a, k1, first) == Written(first)
  {
    BlocksOfSlice(kind, a, k1, lines);
    NamesOfOnly(Blocks(kind, Items(kind, lines)), k1);
    SlicingComposes(kind, a, b, k1, k2, lines);
    SlicingComposes(kind, a, a, k1, k1, lines);
  }

  // ---------------------------------------------------- the real lines are lawful

  // A text that differs from a prefix at some index does not start with it.
  lemma Differs(s: string, p: string, k: nat)
    requires k < |p| && (k < |s| ==> s[k] != p[k])
    ensures !PromText.StartsWith(s, p)
  {
    if |p| <= |s| { assert s[..|p|][k] == s[k]; }
  }

  lemma KindOfIsLawful(mod: string, timeout: string, check: string)
    ensures Lawful(KindOf, ArgsOf(mod, timeout, check))
  {
    var a := ArgsOf(mod, timeout, check);
    ModuleKind(mod);
    TimeoutKind(timeout);
    CheckKind(check);
  }

  lemma ModuleKind(mod: string)
    ensures KindOf("veil module " + mod) == Module
  {
    var l := "veil module " + mod;
    assert l[0] == 'v' && l[..12] == "veil module ";
    Differs(l, "invariant [", 0);
    Differs(l, "safety [", 0);
  }

  lemma TimeoutKind(timeout: string)
    ensures KindOf("set_option veil.smt.timeout " + timeout) == Timeout
  {
    var l := "set_option veil.smt.timeout " + timeout;
    assert l[0] == 's' && l[1] == 'e' && l[..27] == "set_option veil.smt.timeout";
    Differs(l, "invariant [", 0);
    Differs(l, "safety [", 1);
    Differs(l, "veil module ", 0);
  }

  lemma CheckKind(check: string)
    ensures KindOf(if check == "inv" then "#check_invariants" else "#check_action " + check) == Check
  {
    var l := if check == "inv" then "#check_invariants" else "#check_action " + check;
    assert l[0] == '#';
    assert l == "#check_invariants" || l[..13] == "#check_action";
    Differs(l, "invariant [", 0);
    Differs(l, "safety [", 0);
    Differs(l, "veil module ", 0);
    Differs(l, "set_option veil.smt.timeout", 0);
  }

  // The composition law for the lines the script really writes and recognises.
  lemma RealSliceOfSlice(mod: string, timeout: string, check: string, b: Args,
                         k1: set<string>, k2: set<string>, lines: seq<string>)
    requires k2 <= k1 && MakeSpec(KindOf, ArgsOf(mod, timeout, check), k1, lines).Written?
    ensures var first := MakeSpec(KindOf, ArgsOf(mod, timeout, check), k1, lines).lines;
            && Blocks(KindOf, Items(KindOf, first)) == Only(Blocks(KindOf, Items(KindOf, lines)), k1)
            && MakeSpec(KindOf, b, k2, first) == MakeSpec(KindOf, b, k2, lines)
            && MakeSpec(KindOf, ArgsOf(mod, timeout, check), k1, first) == Written(first)
  {
    KindOfIsLawful(mod, timeout, check);
    SliceOfSlice(KindOf, ArgsOf(mod, timeout, check), b, k1, k2, lines);
  }
}
