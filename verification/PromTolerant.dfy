/**
What the metrics reader makes of a live scrape: sample lines with white space around them, a
trailing timestamp or other text, comments, blank lines and lines it cannot read.
 */
module PromTolerant {
  import opened Options
  import opened PromText
  import opened PromRoundTrip

  // Text after the value: nothing, or white space and then anything but braces, not ending in white space.
  predicate IsMore(s: string) {
    s == [] || (IsSpace(s[0]) && !IsSpace(s[|s| - 1]) && '{' !in s && '}' !in s)
  }

  // A printed sample with white space around it and text after its value.
  function Dress(line: string, lead: string, more: string, trail: string): string {
    lead + (line + more) + trail
  }

  // ------------------------------------------------------------- one line

  lemma {:induction false} StripLeftWhite(lead: string, x: string)
    requires IsWhite(lead) && (x == [] || !IsSpace(x[0]))
    ensures StripLeft(lead + x) == x
  {
    if lead == [] {
      assert lead + x == x;
    } else {
      assert (lead + x)[1..] == lead[1..] + x;
      StripLeftWhite(lead[1..], x);
    }
  }

  lemma {:induction false} StripRightWhite(x: string, trail: string)
    requires IsWhite(trail) && (x == [] || !IsSpace(x[|x| - 1]))
    ensures StripRight(x + trail) == x
    decreases |trail|
  {
    if trail == [] {
      assert x + trail == x;
    } else {
      var last := |trail| - 1;
      assert (x + trail)[..|x| + last] == x + trail[..last];
      StripRightWhite(x, trail[..last]);
    }
  }

  lemma StripDressed(lead: string, x: string, trail: string)
    requires IsWhite(lead) && IsWhite(trail) && x != [] && !IsSpace(x[0]) && !IsSpace(x[|x| - 1])
    ensures Strip(lead + x + trail) == x == Strip(x)
  {
    assert lead + x + trail == lead + (x + trail);
    StripLeftWhite(lead, x + trail);
    StripRightWhite(x, trail);
    StripKeeps(x);
  }

  // The reader looks only at the stripped line.
  lemma OnlyStripped<V>(raw: string, line: string, toFloat: string -> Option<V>)
    requires Strip(raw) == line == Strip(line)
    ensures ParseLine(raw, toFloat) == ParseLine(line, toFloat)
  {
  }

  lemma {:induction false} WordBefore(tok: string, more: string)
    requires IsToken(tok) || tok == []
    requires more == [] || IsSpace(more[0])
    ensures TakeWord(tok + more) == tok
  {
    if tok == [] {
      assert tok + more == more;
    } else {
      assert (tok + more)[1..] == tok[1..] + more;
      WordBefore(tok[1..], more);
    }
  }

  lemma ValueBefore<V>(key: Key, tok: string, more: string, toFloat: string -> Option<V>)
    requires IsToken(tok) && IsMore(more)
    ensures ParseValue(key, tok + more, toFloat) == ParseValue(key, " " + tok + more, toFloat)
    ensures ParseValue(key, tok + more, toFloat) ==
            match toFloat(tok) case None => None case Some(v) => Some((key, v))
  {
    WordBefore(tok, more);
    assert " " + tok + more == " " + (tok + more);
    assert (" " + (tok + more))[1..] == tok + more;
    assert StripLeft(tok + more) == tok + more;
  }

  // A sample as it stands in the text: its value is still the token that was printed.
  type Shown = Sample<string>

  function ShownLine(s: Shown): string {
    PrintSample(s, (tok: string) => tok)
  }

  // What a sample line is read as: nothing when the number reader rejects its token.
  function ReadShown<V>(s: Shown, toFloat: string -> Option<V>): Option<(Key, V)> {
    match toFloat(s.value) case None => None case Some(v) => Some((ReadKey(s), v))
  }

  lemma ShownShape(s: Shown, more: string)
    ensures var tail := " " + s.value + more;
            ShownLine(s) + more ==
            if s.labels == [] then s.name + [' '] + (s.value + more)
            else s.name + ['{'] + (PrintLabels(s.labels) + ['}'] + tail)
  {
    var tail := " " + s.value + more;
    if s.labels == [] {
      assert ShownLine(s) == s.name + [] + " " + s.value;
    } else {
      var body := PrintLabels(s.labels);
      assert ShownLine(s) == s.name + ("{" + body + "}") + " " + s.value;
      assert ShownLine(s) + more == s.name + ['{'] + (body + ['}'] + tail);
    }
  }

  // A sample line begins and ends with text.
  lemma ShownEnds(s: Shown, more: string)
    requires WellFormed(s) && IsToken(s.value) && IsMore(more)
    ensures var x := ShownLine(s) + more;
            x != [] && !IsSpace(x[0]) && x[0] != '#' && !IsSpace(x[|x| - 1]) && Strip(x) == x
  {
    var x := ShownLine(s) + more;
    assert x[0] == s.name[0] by { ShownShape(s, more); }
    assert x[|x| - 1] == if more == [] then s.value[|s.value| - 1] else more[|more| - 1] by { ShownShape(s, []); }
    StripKeeps(x);
  }

  lemma DressedBare<V>(s: Shown, more: string, toFloat: string -> Option<V>)
    requires WellFormed(s) && IsToken(s.value) && IsMore(more) && s.labels == []
    ensures ParseLine(ShownLine(s) + more, toFloat) == ReadShown(s, toFloat)
  {
    var x := ShownLine(s) + more;
    ShownEnds(s, more);
    ShownShape(s, more);
    StripKeeps(s.name);
    PartitionAt(s.name, ' ', s.value + more);
    assert '{' !in x;
    assert ReadKey(s) == Key(s.name, {});
    ValueBefore(ReadKey(s), s.value, more, toFloat);
  }

  lemma DressedFacts(x: string, name: string, body: string, tail: string)
    requires x == name + ['{'] + (body + ['}'] + tail) && IsToken(name) && '}' !in tail
    ensures '{' in x && Strip(name) == name && Partition(x, '{') == (name, true, body + ['}'] + tail)
    ensures RPartition(body + ['}'] + tail, '}') == (body, true, tail)
  {
    assert x[|name|] == '{';
    StripKeeps(name);
    PartitionAt(name, '{', body + ['}'] + tail);
    RPartitionAt(body, '}', tail);
  }

  lemma DressedLabelled<V>(s: Shown, more: string, toFloat: string -> Option<V>)
    requires WellFormed(s) && IsToken(s.value) && IsMore(more) && s.labels != []
    ensures ParseLine(ShownLine(s) + more, toFloat) == ReadShown(s, toFloat)
  {
    var body, tail := PrintLabels(s.labels), " " + s.value + more;
    var x, rest := ShownLine(s) + more, body + ['}'] + tail;
    var labels := LabelsBack(s.labels, body);
    assert x == s.name + ['{'] + rest by { ShownShape(s, more); }
    ShownEnds(s, more);
    DressedFacts(x, s.name, body, tail);
    LabelledParse(x, s.name, rest, body, tail, labels, toFloat);
    ValueBefore(Key(s.name, Items(labels)), s.value, more, toFloat);
  }

  // White space around a sample line and a timestamp after its value change nothing.
  lemma DressedLine<V>(s: Shown, lead: string, more: string, trail: string, toFloat: string -> Option<V>)
    requires WellFormed(s) && IsToken(s.value) && IsWhite(lead) && IsMore(more) && IsWhite(trail)
    ensures ParseLine(Dress(ShownLine(s), lead, more, trail), toFloat) == ReadShown(s, toFloat)
  {
    var x := ShownLine(s) + more;
    ShownEnds(s, more);
    StripDressed(lead, x, trail);
    OnlyStripped(Dress(ShownLine(s), lead, more, trail), x, toFloat);
    if s.labels == [] { DressedBare(s, more, toFloat); } else { DressedLabelled(s, more, toFloat); }
  }

  // ------------------------------------------------------------- lines without a sample

  // Blank, a comment, an unclosed brace, or no value at all.
  predicate IsNoise(line: string) {
    || StripLeft(line) == [] || StripLeft(line)[0] == '#'
    || ('{' in line && '}' !in line) || ('{' !in line && ' ' !in line)
  }

  lemma {:induction false} StripLeftText(s: string)
    ensures forall c | c in StripLeft(s) :: c in s
    ensures forall c | c in s && !IsSpace(c) :: c in StripLeft(s)
    ensures StripLeft(s) != [] ==> !IsSpace(StripLeft(s)[0])
  {
    if s != [] && IsSpace(s[0]) {
      StripLeftText(s[1..]);
      assert s == [s[0]] + s[1..];
    }
  }

  lemma {:induction false} StripRightText(s: string)
    ensures forall c | c in StripRight(s) :: c in s
    ensures forall c | c in s && !IsSpace(c) :: c in StripRight(s)
    ensures s != [] && !IsSpace(s[0]) ==> StripRight(s) != [] && StripRight(s)[0] == s[0]
  {
    if s != [] && IsSpace(s[|s| - 1]) {
      StripRightText(s[..|s| - 1]);
      assert s == s[..|s| - 1] + [s[|s| - 1]];
    }
  }

  // Stripping takes away white space only, and keeps the first character that is none.
  lemma StripText(s: string)
    ensures forall c | c in Strip(s) :: c in s
    ensures forall c | c in s && !IsSpace(c) :: c in Strip(s)
    ensures StripLeft(s) == [] ==> Strip(s) == []
    ensures StripLeft(s) != [] ==> Strip(s) != [] && Strip(s)[0] == StripLeft(s)[0]
  {
    StripLeftText(s);
    StripRightText(StripLeft(s));
  }

  lemma {:induction false} NoPartition(s: string, c: char)
    ensures Partition(s, c).1 <==> c in s
    ensures c !in s ==> Partition(s, c) == (s, false, [])
    ensures forall x | x in Partition(s, c).2 :: x in s
  {
    if s != [] && s[0] != c {
      NoPartition(s[1..], c);
      assert s == [s[0]] + s[1..];
    }
  }

  lemma {:induction false} NoRPartition(s: string, c: char)
    requires c !in s
    ensures !RPartition(s, c).1
  {
    if s != [] { NoRPartition(s[..|s| - 1], c); }
  }

  lemma NoiseIsSkipped<V>(line: string, toFloat: string -> Option<V>)
    requires IsNoise(line)
    ensures ParseLine(line, toFloat) == None
  {
    var x := Strip(line);
    StripText(line);
    if x != [] && x[0] != '#' {
      if '{' in line {
        var rest := Partition(x, '{').2;
        NoPartition(x, '{');
        assert '}' !in x;
        NoRPartition(rest, '}');
      } else {
        assert ' ' !in x;
        NoPartition(x, ' ');
      }
    }
  }

  // ------------------------------------------------------------- label dictionaries

  // A line is abandoned exactly when one of its label parts has no equals sign.
  lemma {:induction false} AbandonedIff(parts: seq<string>, labels: map<string, string>)
    ensures LabelDict(parts, labels).None? <==> exists i | 0 <= i < |parts| :: '=' !in parts[i]
    decreases |parts|
  {
    if parts != [] {
      var (k, eq, v) := Partition(parts[0], '=');
      NoPartition(parts[0], '=');
      AbandonedIff(parts[1..], labels[Strip(k) := Unquote(v)]);
      if '=' in parts[0] {
        if i :| 0 <= i < |parts| && '=' !in parts[i] { assert parts[1..][i - 1] == parts[i]; }
        if i :| 0 <= i < |parts[1..]| && '=' !in parts[1..][i] { assert parts[i + 1] == parts[1..][i]; }
      }
    }
  }

  function PartName(part: string): string {
    Strip(Partition(part, '=').0)
  }

  // Part i is the last one with its name.
  ghost predicate LastNamed(parts: seq<string>, i: nat) {
    i < |parts| && forall j | i < j < |parts| :: PartName(parts[j]) != PartName(parts[i])
  }

  // A name that no part has keeps what it had.
  lemma {:induction false} LabelKept(parts: seq<string>, labels: map<string, string>, k: string)
    requires LabelDict(parts, labels).Some? && forall i | 0 <= i < |parts| :: PartName(parts[i]) != k
    ensures var d := LabelDict(parts, labels).value; (k in d <==> k in labels) && (k in d ==> d[k] == labels[k])
    decreases |parts|
  {
    if parts != [] {
      var (name, eq, v) := Partition(parts[0], '=');
      assert PartName(parts[0]) != k;
      LabelKept(parts[1..], labels[Strip(name) := Unquote(v)], k);
    }
  }

  // Of label parts with one name the last counts.
  lemma {:induction false} LastLabelWins(parts: seq<string>, labels: map<string, string>, i: nat)
    requires LabelDict(parts, labels).Some? && LastNamed(parts, i)
    ensures var d := LabelDict(parts, labels).value;
            PartName(parts[i]) in d && d[PartName(parts[i])] == Unquote(Partition(parts[i], '=').2)
    decreases |parts|
  {
    var (name, eq, v) := Partition(parts[0], '=');
    var rest, more := parts[1..], labels[Strip(name) := Unquote(v)];
    if i == 0 {
      assert forall j | 0 <= j < |rest| :: PartName(rest[j]) == PartName(parts[j + 1]);
      LabelKept(rest, more, PartName(parts[0]));
    } else {
      assert forall j | i - 1 < j < |rest| :: PartName(rest[j]) == PartName(parts[j + 1]);
      LastLabelWins(rest, more, i - 1);
    }
  }

  // ------------------------------------------------------------- a whole scrape

  datatype Entry = Noise(line: string) | Line(sample: Shown, lead: string, more: string, trail: string)

  function TextOf(e: Entry): string {
    match e
    case Noise(line) => line
    case Line(s, lead, more, trail) => Dress(ShownLine(s), lead, more, trail)
  }

  ghost predicate IsEntry(e: Entry) {
    && Unbroken(TextOf(e))
    && match e
       case Noise(line) => IsNoise(line)
       case Line(s, lead, more, trail) =>
         WellFormed(s) && IsToken(s.value) && IsWhite(lead) && IsMore(more) && IsWhite(trail)
  }

  ghost predicate AllEntries(entries: seq<Entry>) {
    forall i | 0 <= i < |entries| :: IsEntry(entries[i])
  }

  function Texts(entries: seq<Entry>): seq<string> {
    seq(|entries|, i requires 0 <= i < |entries| => TextOf(entries[i]))
  }

  function Joined(lines: seq<string>): string {
    if lines == [] then [] else lines[0] + ['\n'] + Joined(lines[1..])
  }

  function Scrape(entries: seq<Entry>): string {
    Joined(Texts(entries))
  }

  lemma {:induction false} JoinedLines(lines: seq<string>)
    requires forall i | 0 <= i < |lines| :: Unbroken(lines[i])
    ensures SplitLines(Joined(lines)) == lines
  {
    if lines != [] {
      JoinedLines(lines[1..]);
      LineBoundary(lines[0], '\n', Joined(lines[1..]), []);
      assert [] + lines[0] == lines[0] && lines == [lines[0]] + lines[1..];
    }
  }

  // Entry i is a sample line that is read under this key.
  ghost predicate GivesKey<V>(entries: seq<Entry>, i: nat, k: Key, toFloat: string -> Option<V>) {
    i < |entries| && entries[i].Line? && ReadKey(entries[i].sample) == k && toFloat(entries[i].sample.value).Some?
  }

  // The map holds the value of the last line of each key, and no other key.
  ghost predicate LastLineWins<V>(out: map<Key, V>, entries: seq<Entry>, toFloat: string -> Option<V>) {
    && (forall k | k in out :: exists i: nat :: GivesKey(entries, i, k, toFloat))
    && forall i: nat, k: Key | GivesKey(entries, i, k, toFloat) && NoneLater(entries, i, k, toFloat) ::
         k in out && Some(out[k]) == toFloat(entries[i].sample.value)
  }

  ghost predicate NoneLater<V>(entries: seq<Entry>, i: nat, k: Key, toFloat: string -> Option<V>) {
    forall j: nat | i < j :: !GivesKey(entries, j, k, toFloat)
  }

  function ReadEntry<V>(e: Entry, toFloat: string -> Option<V>): Option<(Key, V)> {
    match e
    case Noise(_) => None
    case Line(s, _, _, _) => ReadShown(s, toFloat)
  }

  function Put<V>(out: map<Key, V>, read: Option<(Key, V)>): map<Key, V> {
    match read
    case None => out
    case Some((k, v)) => out[k := v]
  }

  lemma EntryRead<V>(e: Entry, toFloat: string -> Option<V>)
    requires IsEntry(e)
    ensures ParseLine(TextOf(e), toFloat) == ReadEntry(e, toFloat)
  {
    match e
    case Noise(line) => NoiseIsSkipped(line, toFloat);
    case Line(s, lead, more, trail) => DressedLine(s, lead, more, trail, toFloat);
  }

  lemma ReadSnoc<V>(entries: seq<Entry>, e: Entry, toFloat: string -> Option<V>)
    ensures ReadAll(Texts(entries + [e]), toFloat) == ReadAll(Texts(entries), toFloat) + [ParseLine(TextOf(e), toFloat)]
  {
  }

  lemma CollectSnoc<V>(got: seq<Option<(Key, V)>>, read: Option<(Key, V)>)
    ensures Collect(got + [read]) == Put(Collect(got), read)
  {
    assert (got + [read])[..|got|] == got;
  }

  lemma {:induction false} CollectWins<V>(entries: seq<Entry>, toFloat: string -> Option<V>)
    requires AllEntries(entries)
    ensures LastLineWins(Collect(ReadAll(Texts(entries), toFloat)), entries, toFloat)
  {
    if entries != [] {
      var before, e := entries[..|entries| - 1], entries[|entries| - 1];
      assert entries == before + [e] && IsEntry(e);
      CollectWins(before, toFloat);
      EntryRead(e, toFloat);
      ReadSnoc(before, e, toFloat);
      CollectSnoc(ReadAll(Texts(before), toFloat), ParseLine(TextOf(e), toFloat));
      OneMoreWins(Collect(ReadAll(Texts(before), toFloat)), before, e, toFloat);
    }
  }

  lemma OneMoreWins<V>(out: map<Key, V>, before: seq<Entry>, e: Entry, toFloat: string -> Option<V>)
    requires LastLineWins(out, before, toFloat)
    ensures LastLineWins(Put(out, ReadEntry(e, toFloat)), before + [e], toFloat)
  {
    var now, n, read := before + [e], |before|, ReadEntry(e, toFloat);
    assert forall i | 0 <= i < n :: now[i] == before[i];
    forall i: nat, k: Key ensures GivesKey(now, i, k, toFloat) <==>
      GivesKey(before, i, k, toFloat) || (i == n && read.Some? && read.value.0 == k) {}
    var out' := Put(out, read);
    forall k | k in out' ensures exists i: nat :: GivesKey(now, i, k, toFloat) {
      if read.Some? && read.value.0 == k {
        assert GivesKey(now, n, k, toFloat);
      } else {
        var i: nat :| GivesKey(before, i, k, toFloat);
        assert GivesKey(now, i, k, toFloat);
      }
    }
    forall i: nat, k: Key | GivesKey(now, i, k, toFloat) && NoneLater(now, i, k, toFloat)
      ensures k in out' && Some(out'[k]) == toFloat(now[i].sample.value)
    {
      if i < n {
        assert !GivesKey(now, n, k, toFloat);
        assert GivesKey(before, i, k, toFloat) && NoneLater(before, i, k, toFloat);
      }
    }
  }

  // MAIN RESULT.  A scrape of sample lines, however indented and time-stamped, among comments, blank lines and broken
  // ones, is read as exactly the samples whose number can be read, the last line of a key counting.
  lemma ScrapeIsRead<V>(entries: seq<Entry>, toFloat: string -> Option<V>)
    requires AllEntries(entries)
    ensures LastLineWins(ParseSpec(Scrape(entries), toFloat), entries, toFloat)
  {
    JoinedLines(Texts(entries));
    CollectWins(entries, toFloat);
  }

  // A carriage return and a line feed end one line, not two.
  lemma CrLfIsOneBreak(line: string, rest: string)
    requires Unbroken(line)
    ensures SplitLines(line + "\r\n" + rest) == [line] + SplitLines(rest)
  {
    CrLfFrom(line, rest, []);
    assert [] + line == line;
  }

  lemma {:induction false} CrLfFrom(line: string, rest: string, before: string)
    requires Unbroken(line)
    ensures LinesFrom(line + "\r\n" + rest, before) == [before + line] + LinesFrom(rest, [])
    decreases |line|
  {
    var s := line + "\r\n" + rest;
    if line == [] {
      assert s[0] == '\r' && s[1] == '\n' && s[2..] == rest && before + line == before;
    } else {
      assert s[1..] == line[1..] + "\r\n" + rest;
      CrLfFrom(line[1..], rest, before + [line[0]]);
      assert before + [line[0]] + line[1..] == before + line;
    }
  }

  // A last line without a line feed is a line all the same.
  lemma {:induction false} UnterminatedLine(lines: seq<string>, last: string)
    requires (forall i | 0 <= i < |lines| :: Unbroken(lines[i])) && Unbroken(last) && last != []
    ensures SplitLines(Joined(lines) + last) == lines + [last]
  {
    if lines == [] {
      assert Joined(lines) + last == last && [] + last == last;
      OnlyLine(last, []);
    } else {
      UnterminatedLine(lines[1..], last);
      var rest := Joined(lines[1..]) + last;
      assert Joined(lines) + last == lines[0] + ['\n'] + rest;
      LineBoundary(lines[0], '\n', rest, []);
      assert [] + lines[0] == lines[0] && [lines[0]] + (lines[1..] + [last]) == lines + [last];
    }
  }

  lemma {:induction false} OnlyLine(s: string, line: string)
    requires Unbroken(s) && line + s != []
    ensures LinesFrom(s, line) == [line + s]
    decreases |s|
  {
    if s == [] {
      assert line + s == line;
    } else {
      OnlyLine(s[1..], line + [s[0]]);
      assert line + [s[0]] + s[1..] == line + s;
    }
  }

  // A comma after the last label adds nothing.
  lemma TrailingComma(labels: seq<(string, string)>)
    requires labels != [] && forall i | 0 <= i < |labels| :: IsToken(labels[i].0)
    ensures SplitLabelsSpec(PrintLabels(labels) + ",") == SplitLabelsSpec(PrintLabels(labels))
  {
    var body := PrintLabels(labels);
    var st := ScanAll(START, body);
    assert !st.inQuotes && !st.escaped by { ScanLabels([], labels); }
    CommaAfter(body, st);
  }

  lemma CommaAfter(body: string, st: Scan)
    requires st == ScanAll(START, body) && !st.inQuotes && !st.escaped
    ensures SplitLabelsSpec(body + ",") == SplitLabelsSpec(body)
  {
    ScanSnoc(START, body, ',');
    assert ScanAll(START, body + ",") == st.(parts := st.parts + [st.buf], buf := []);
    StripPartsConcat(st.parts + [st.buf], [[]]);
    assert Strip([]) == [];
  }

  lemma {:induction false} StripPartsConcat(a: seq<string>, b: seq<string>)
    ensures PromText.StripParts(a + b) == PromText.StripParts(a) + PromText.StripParts(b)
  {
    if a == [] {
      assert a + b == b;
    } else {
      assert (a + b)[1..] == a[1..] + b;
      StripPartsConcat(a[1..], b);
    }
  }

  // The line boundaries, one by one.
  lemma BreaksAre(c: char)
    ensures IsBreak(c) <==>
            c in {'\n', '\U{0B}', '\U{0C}', '\r', '\U{1C}', '\U{1D}', '\U{1E}', '\U{85}', '\U{2028}', '\U{2029}'}
  {
  }
}
