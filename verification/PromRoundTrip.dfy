/**
Printing samples in the exposition format (label values escape backslash, double
quote and line feed) and reading them back.  The reader unescapes with three
successive replacements, so a backslash directly followed by the letter n is lost, and
it splits lines at more characters than the format escapes.  The round trip holds if and
only if no label value contains that pair or a line boundary other than the line feed.
 */
module PromRoundTrip {
  import opened Options
  import opened PromText

  // One sample to print: labels in the order they are written.
  datatype Sample<V> = Sample(name: string, labels: seq<(string, string)>, value: V)

  // ------------------------------------------------------------------ printing

  function EscapeChar(c: char): string {
    match c
    case '\\' => "\\\\"
    case '\"' => "\\\""
    case '\n' => "\\n"
    case _ => [c]
  }

  function Escape(v: string): string {
    if v == [] then [] else EscapeChar(v[0]) + Escape(v[1..])
  }

  function PrintLabel(lab: (string, string)): string {
    lab.0 + "=\"" + Escape(lab.1) + "\""
  }

  function PrintLabels(labels: seq<(string, string)>): string {
    if labels == [] then []
    else if |labels| == 1 then PrintLabel(labels[0])
    else PrintLabel(labels[0]) + "," + PrintLabels(labels[1..])
  }

  function PrintSample<V>(s: Sample<V>, fmt: V -> string): string {
    s.name + (if s.labels == [] then [] else "{" + PrintLabels(s.labels) + "}") + " " + fmt(s.value)
  }

  function Print<V>(samples: seq<Sample<V>>, fmt: V -> string): string {
    if samples == [] then [] else PrintSample(samples[0], fmt) + "\n" + Print(samples[1..], fmt)
  }

  // ------------------------------------------------------------ what may appear

  // A character of a family name, a label name or a number.
  predicate IsPlain(c: char) {
    !IsSpace(c) && c != '{' && c != '}' && c != '=' && c != ',' && c != '\"' && c != '#' && c != '\\'
  }

  predicate IsToken(s: string) {
    s != [] && forall i | 0 <= i < |s| :: IsPlain(s[i])
  }

  // No line boundary other than the line feed, which the format escapes.
  predicate NoOtherBreak(v: string) {
    forall i | 0 <= i < |v| :: IsBreak(v[i]) ==> v[i] == '\n'
  }

  ghost predicate DistinctLabels(labels: seq<(string, string)>) {
    forall i, j | 0 <= i < j < |labels| :: labels[i].0 != labels[j].0
  }

  ghost predicate WellFormed<V>(s: Sample<V>) {
    && IsToken(s.name)
    && DistinctLabels(s.labels)
    && forall i | 0 <= i < |s.labels| :: IsToken(s.labels[i].0)
  }

  // The number printer and the number reader agree.
  ghost predicate Faithful<V(!new)>(fmt: V -> string, toFloat: string -> Option<V>) {
    forall v :: IsToken(fmt(v)) && toFloat(fmt(v)) == Some(v)
  }

  ghost predicate AllWellFormed<V>(samples: seq<Sample<V>>) {
    forall s | s in samples :: WellFormed(s)
  }

  function KeyOf<V>(s: Sample<V>): Key {
    Key(s.name, set l | l in s.labels)
  }

  // `samples` lists the entries of `m` in some order.
  ghost predicate Lists<V>(samples: seq<Sample<V>>, m: map<Key, V>) {
    && (forall s | s in samples :: KeyOf(s) in m && m[KeyOf(s)] == s.value)
    && (forall k | k in m :: exists s | s in samples :: KeyOf(s) == k)
  }

  predicate HasBackslashN(v: string) {
    exists i | 0 <= i < |v| - 1 :: v[i] == '\\' && v[i + 1] == 'n'
  }

  predicate Recoverable<V>(s: Sample<V>) {
    forall i | 0 <= i < |s.labels| :: !HasBackslashN(s.labels[i].1)
  }

  predicate AllRecoverable<V>(samples: seq<Sample<V>>) {
    forall i | 0 <= i < |samples| :: Recoverable(samples[i])
  }

  // The sample is printed on one line.
  predicate OneLine<V>(s: Sample<V>) {
    forall i | 0 <= i < |s.labels| :: NoOtherBreak(s.labels[i].1)
  }

  predicate AllOneLine<V>(samples: seq<Sample<V>>) {
    forall i | 0 <= i < |samples| :: OneLine(samples[i])
  }

  // ------------------------------------------- escaping against three replacements

  // A value with `\"` undone, with `\n` undone as well, and fully unescaped.
  function AfterQuotes(v: string): string {
    if v == [] then []
    else (match v[0]
          case '\\' => "\\\\"
          case '\n' => "\\n"
          case c => [c]) + AfterQuotes(v[1..])
  }

  function AfterFeeds(v: string): string {
    if v == [] then []
    else if v[0] == '\\' && |v| > 1 && v[1] == 'n' then "\\\n" + AfterFeeds(v[2..])
    else (if v[0] == '\\' then "\\\\" else [v[0]]) + AfterFeeds(v[1..])
  }

  // The reader's reading of an escaped `v`: `\n` becomes backslash, line feed.
  function Reading(v: string): string {
    if v == [] then []
    else if v[0] == '\\' && |v| > 1 && v[1] == 'n' then "\\\n" + Reading(v[2..])
    else [v[0]] + Reading(v[1..])
  }

  lemma {:induction false} QuotesUndone(v: string)
    ensures Replace2(Escape(v), '\\', '\"', '\"') == AfterQuotes(v)
    ensures Escape(v) != [] ==> Escape(v)[0] != '\"'
  {
    if v != [] {
      var e, rest := Escape(v), Escape(v[1..]);
      QuotesUndone(v[1..]);
      if v[0] == '\\' {
        assert e[1..] == ['\\'] + rest && e[1..][1..] == rest && e[2..] == rest;
      } else if v[0] == '\"' {
        assert e[2..] == rest;
      } else if v[0] == '\n' {
        assert e[1..] == ['n'] + rest && e[1..][1..] == rest;
      } else {
        assert e[1..] == rest;
      }
    }
  }

  lemma {:induction false} FeedsUndone(v: string)
    ensures Replace2(AfterQuotes(v), '\\', 'n', '\n') == AfterFeeds(v)
    ensures AfterQuotes(v) != [] && AfterQuotes(v)[0] == 'n' <==> v != [] && v[0] == 'n'
    decreases |v|
  {
    if v != [] {
      var e, rest := AfterQuotes(v), AfterQuotes(v[1..]);
      FeedsUndone(v[1..]);
      if v[0] == '\\' {
        assert e[1..] == ['\\'] + rest && e[1..][1..] == rest;
        if |v| > 1 && v[1] == 'n' {
          FeedsUndone(v[2..]);
          assert v[1..][1..] == v[2..];
          assert rest == ['n'] + AfterQuotes(v[2..]);
          assert e[1..][2..] == AfterQuotes(v[2..]);
        }
      } else if v[0] == '\n' {
        assert e[2..] == rest;
      } else {
        assert e[1..] == rest;
      }
    }
  }

  lemma {:induction false} BackslashesUndone(v: string)
    ensures Replace2(AfterFeeds(v), '\\', '\\', '\\') == Reading(v)
    decreases |v|
  {
    if v != [] {
      var e := AfterFeeds(v);
      if v[0] == '\\' && |v| > 1 && v[1] == 'n' {
        BackslashesUndone(v[2..]);
        assert e[1..] == ['\n'] + AfterFeeds(v[2..]) && e[1..][1..] == AfterFeeds(v[2..]);
      } else if v[0] == '\\' {
        BackslashesUndone(v[1..]);
        assert e[2..] == AfterFeeds(v[1..]);
      } else {
        BackslashesUndone(v[1..]);
        assert e[1..] == AfterFeeds(v[1..]);
      }
    }
  }

  lemma {:induction false} UnescapeEscape(v: string)
    ensures Unescape(Escape(v)) == Reading(v)
  {
    QuotesUndone(v);
    FeedsUndone(v);
    BackslashesUndone(v);
  }

  // What is read back never holds the pair, and equals the value exactly when the value did not.
  lemma {:induction false} ReadingExact(v: string)
    ensures !HasBackslashN(Reading(v))
    ensures Reading(v) == v <==> !HasBackslashN(v)
    ensures Reading(v) != [] && Reading(v)[0] == 'n' <==> v != [] && v[0] == 'n'
    ensures |Reading(v)| == |v|
    decreases |v|
  {
    if v != [] {
      var r := Reading(v);
      if v[0] == '\\' && |v| > 1 && v[1] == 'n' {
        ReadingExact(v[2..]);
        assert r[1] == '\n';
        assert r == "\\\n" + Reading(v[2..]) && r[2..] == Reading(v[2..]);
        assert forall i | 2 <= i < |r| :: r[i] == Reading(v[2..])[i - 2];
      } else {
        ReadingExact(v[1..]);
        var q := Reading(v[1..]);
        assert forall i | 0 <= i < |r| - 1 :: i >= 1 ==> r[i] == q[i - 1] && r[i + 1] == q[i];
        if HasBackslashN(v) {
          var i :| 0 <= i < |v| - 1 && v[i] == '\\' && v[i + 1] == 'n';
          assert i >= 1;
          assert v[1..][i - 1] == '\\' && v[1..][i] == 'n';
        }
        if HasBackslashN(v[1..]) {
          var i :| 0 <= i < |v[1..]| - 1 && v[1..][i] == '\\' && v[1..][i + 1] == 'n';
          assert v[i + 1] == '\\' && v[i + 2] == 'n';
        }
        assert r == [v[0]] + q && v == [v[0]] + v[1..];
        if r == v { assert q == r[1..] == v[1..]; }
      }
    }
  }

  // ---------------------------------------------------- strings around a printed text

  lemma {:induction false} StripKeeps(s: string)
    requires s == [] || (!IsSpace(s[0]) && !IsSpace(s[|s| - 1]))
    ensures Strip(s) == s
  {
  }

  lemma {:induction false} PartitionAt(a: string, c: char, b: string)
    requires c !in a
    ensures Partition(a + [c] + b, c) == (a, true, b)
  {
    var s := a + [c] + b;
    if a == [] {
      assert s[1..] == b;
    } else {
      assert s[1..] == a[1..] + [c] + b && [a[0]] + a[1..] == a;
      PartitionAt(a[1..], c, b);
    }
  }

  lemma {:induction false} RPartitionAt(a: string, c: char, b: string)
    requires c !in b
    ensures RPartition(a + [c] + b, c) == (a, true, b)
    decreases |b|
  {
    var s := a + [c] + b;
    if b == [] {
      assert s[..|s| - 1] == a;
    } else {
      assert s[..|s| - 1] == a + [c] + b[..|b| - 1] && b[..|b| - 1] + [b[|b| - 1]] == b;
      RPartitionAt(a, c, b[..|b| - 1]);
    }
  }

  lemma {:induction false} TokenIsWord(t: string)
    requires forall i | 0 <= i < |t| :: IsPlain(t[i])
    ensures TakeWord(t) == t
  {
    if t != [] { TokenIsWord(t[1..]); }
  }

  lemma {:induction false} LineBoundary(a: string, c: char, rest: string, line: string)
    requires (forall i | 0 <= i < |a| :: !IsBreak(a[i])) && IsBreak(c) && !(c == '\r' && rest != [] && rest[0] == '\n')
    ensures LinesFrom(a + [c] + rest, line) == [line + a] + LinesFrom(rest, [])
    decreases |a|
  {
    var s := a + [c] + rest;
    if a == [] {
      assert s[1..] == rest && line + a == line;
    } else {
      assert s[1..] == a[1..] + [c] + rest;
      LineBoundary(a[1..], c, rest, line + [a[0]]);
      assert line + [a[0]] + a[1..] == line + a;
    }
  }

  // --------------------------------------------------------- splitting the labels

  // Outside quotes, a run of plain characters or '=' is copied to the buffer.
  lemma {:induction false} ScanPlain(st: Scan, s: string)
    requires !st.escaped && !st.inQuotes
    requires forall i | 0 <= i < |s| :: s[i] != ',' && s[i] != '\"'
    ensures ScanAll(st, s) == st.(buf := st.buf + s)
    decreases |s|
  {
    if s == [] {
      assert st.buf + s == st.buf;
    } else {
      ScanPlain(ScanChar(st, s[0]), s[1..]);
      assert st.buf + [s[0]] + s[1..] == st.buf + s;
    }
  }

  lemma ScanEscapedChar(st: Scan, c: char)
    requires !st.escaped && st.inQuotes
    ensures ScanAll(st, EscapeChar(c)) == st.(buf := st.buf + EscapeChar(c))
  {
    var e := EscapeChar(c);
    if |e| == 2 {
      var s1 := ScanChar(st, e[0]);
      assert s1 == st.(buf := st.buf + [e[0]], escaped := true);
      assert e[1..][1..] == [] && ScanAll(s1, e[1..]) == ScanChar(s1, e[1]);
      assert st.buf + [e[0]] + [e[1]] == st.buf + e;
    } else {
      assert e[1..] == [];
    }
  }

  // Inside quotes an escaped value never closes them.
  lemma {:induction false} ScanEscaped(st: Scan, v: string)
    requires !st.escaped && st.inQuotes
    ensures ScanAll(st, Escape(v)) == st.(buf := st.buf + Escape(v))
    decreases |v|
  {
    if v == [] {
      assert st.buf + Escape(v) == st.buf;
    } else {
      var chunk, rest := EscapeChar(v[0]), Escape(v[1..]);
      ScanEscapedChar(st, v[0]);
      ScanEscaped(st.(buf := st.buf + chunk), v[1..]);
      ScanConcat(st, chunk, rest);
      BufferTwice(st, chunk, rest);
      assert Escape(v) == chunk + rest;
    }
  }

  lemma BufferTwice(st: Scan, a: string, b: string)
    ensures st.(buf := st.buf + a + b) == st.(buf := st.buf + (a + b))
  {
    assert st.buf + a + b == st.buf + (a + b);
  }

  // A quoted value is scanned whole and leaves the quotes closed.
  lemma ScanQuoted(st: Scan, v: string, quote: string)
    requires !st.escaped && !st.inQuotes && quote == ['\"']
    ensures ScanAll(st, quote + Escape(v) + quote) == st.(buf := st.buf + (quote + Escape(v) + quote))
  {
    var s1 := st.(buf := st.buf + quote, inQuotes := true);
    assert quote[1..] == [] && ScanAll(st, quote) == s1;
    ScanEscaped(s1, v);
    var s2 := s1.(buf := s1.buf + Escape(v));
    assert ScanAll(s2, quote) == s2.(buf := s2.buf + quote, inQuotes := false);
    ScanConcat(st, quote, Escape(v));
    ScanConcat(st, quote + Escape(v), quote);
    assert st.buf + quote + Escape(v) + quote == st.buf + (quote + Escape(v) + quote);
  }

  lemma ScanLabel(st: Scan, lab: (string, string))
    requires !st.escaped && !st.inQuotes && IsToken(lab.0)
    ensures ScanAll(st, PrintLabel(lab)) == st.(buf := st.buf + PrintLabel(lab))
  {
    var head, quote := lab.0 + "=", ['\"'];
    var tail := quote + Escape(lab.1) + quote;
    ScanPlain(st, head);
    ScanQuoted(st.(buf := st.buf + head), lab.1, quote);
    ScanConcat(st, head, tail);
    BufferTwice(st, head, tail);
    assert PrintLabel(lab) == head + tail;
  }

  function LabelParts(labels: seq<(string, string)>): seq<string> {
    seq(|labels|, i requires 0 <= i < |labels| => PrintLabel(labels[i]))
  }

  lemma {:induction false} ScanLabels(parts: seq<string>, labels: seq<(string, string)>)
    requires labels != []
    requires forall i | 0 <= i < |labels| :: IsToken(labels[i].0)
    ensures var st := ScanAll(Scan(parts, [], false, false), PrintLabels(labels));
            st.parts + [st.buf] == parts + LabelParts(labels) && !st.inQuotes && !st.escaped
    decreases |labels|
  {
    var st := Scan(parts, [], false, false);
    ScanLabel(st, labels[0]);
    assert [] + PrintLabel(labels[0]) == PrintLabel(labels[0]);
    if |labels| == 1 {
      assert LabelParts(labels) == [PrintLabel(labels[0])];
    } else {
      var comma := ",";
      assert PrintLabels(labels) == PrintLabel(labels[0]) + comma + PrintLabels(labels[1..]);
      ScanConcat(st, PrintLabel(labels[0]) + comma, PrintLabels(labels[1..]));
      ScanConcat(st, PrintLabel(labels[0]), comma);
      assert comma[1..] == [];
      ScanLabels(parts + [PrintLabel(labels[0])], labels[1..]);
      assert LabelParts(labels) == [PrintLabel(labels[0])] + LabelParts(labels[1..]);
    }
  }

  lemma {:induction false} PartsSurviveStrip(labels: seq<(string, string)>)
    requires forall i | 0 <= i < |labels| :: IsToken(labels[i].0)
    ensures StripParts(LabelParts(labels)) == LabelParts(labels)
  {
    if labels != [] {
      var p := PrintLabel(labels[0]);
      assert p[0] == labels[0].0[0] && p[|p| - 1] == '\"';
      StripKeeps(p);
      assert LabelParts(labels)[1..] == LabelParts(labels[1..]);
      PartsSurviveStrip(labels[1..]);
    }
  }

  // The quoted, escaped value comes back as its reading.
  lemma {:induction false} UnquoteQuoted(v: string)
    ensures Unquote("\"" + Escape(v) + "\"") == Reading(v)
  {
    var q := "\"" + Escape(v) + "\"";
    StripKeeps(q);
    assert q[1..|q| - 1] == Escape(v);
    UnescapeEscape(v);
  }

  // ----------------------------------------------------------- one line, read back

  function ReadLabel(lab: (string, string)): (string, string) {
    (lab.0, Reading(lab.1))
  }

  function ReadLabels(labels: seq<(string, string)>): set<(string, string)> {
    set l | l in labels :: ReadLabel(l)
  }

  lemma ReadLabelsCons(labels: seq<(string, string)>)
    requires labels != []
    ensures ReadLabels(labels) == {ReadLabel(labels[0])} + ReadLabels(labels[1..])
  {
    assert labels == [labels[0]] + labels[1..];
  }

  lemma ItemsAdd(d: map<string, string>, k: string, v: string)
    requires k !in d
    ensures Items(d[k := v]) == Items(d) + {(k, v)}
  {
    var d' := d[k := v];
    forall x | x in Items(d) ensures x in Items(d') { assert x.0 in d && x.0 in d'; }
    assert k in d' && d'[k] == v;
  }

  lemma DictStep(lab: (string, string), parts: seq<string>, d: map<string, string>)
    requires IsToken(lab.0) && parts != [] && parts[0] == PrintLabel(lab)
    ensures LabelDict(parts, d) == LabelDict(parts[1..], d[lab.0 := Reading(lab.1)])
  {
    var quoted := "\"" + Escape(lab.1) + "\"";
    assert parts[0] == lab.0 + ['='] + quoted;
    PartitionAt(lab.0, '=', quoted);
    StripKeeps(lab.0);
    UnquoteQuoted(lab.1);
  }

  lemma {:induction false} DictOfParts(labels: seq<(string, string)>, d: map<string, string>)
    requires forall i | 0 <= i < |labels| :: IsToken(labels[i].0) && labels[i].0 !in d
    requires DistinctLabels(labels)
    ensures var r := LabelDict(LabelParts(labels), d);
            r.Some? && Items(r.value) == Items(d) + ReadLabels(labels)
    decreases |labels|
  {
    if labels == [] {
      assert ReadLabels(labels) == {};
    } else {
      var lab, parts := labels[0], LabelParts(labels);
      assert parts[1..] == LabelParts(labels[1..]);
      DictStep(lab, parts, d);
      DictOfParts(labels[1..], d[lab.0 := Reading(lab.1)]);
      ItemsAdd(d, lab.0, Reading(lab.1));
      ReadLabelsCons(labels);
    }
  }

  // The sample a printed line is read as: its label values replaced by their readings.
  function ReadKey<V>(s: Sample<V>): Key {
    Key(s.name, ReadLabels(s.labels))
  }

  // The splitter gives back exactly the printed labels, whatever their values hold.
  lemma SplitBack(labels: seq<(string, string)>)
    requires labels != []
    requires forall i | 0 <= i < |labels| :: IsToken(labels[i].0)
    ensures SplitLabelsSpec(PrintLabels(labels)) == LabelParts(labels)
  {
    var st := ScanAll(START, PrintLabels(labels));
    assert st.parts + [st.buf] == LabelParts(labels) by {
      ScanLabels([], labels);
      assert [] + LabelParts(labels) == LabelParts(labels);
    }
    PartsSurviveStrip(labels);
  }

  lemma LabelsBack(labels: seq<(string, string)>, body: string) returns (d: map<string, string>)
    requires labels != [] && DistinctLabels(labels) && body == PrintLabels(labels)
    requires forall i | 0 <= i < |labels| :: IsToken(labels[i].0)
    ensures LabelDict(SplitLabelsSpec(body), map[]) == Some(d) && Items(d) == ReadLabels(labels)
  {
    assert SplitLabelsSpec(body) == LabelParts(labels) by { SplitBack(labels); }
    assert Items(map[]) == {};
    DictOfParts(labels, map[]);
    d := LabelDict(LabelParts(labels), map[]).value;
  }

  lemma ValueBack<V>(key: Key, tok: string, toFloat: string -> Option<V>)
    requires IsToken(tok) && toFloat(tok).Some?
    ensures ParseValue(key, tok, toFloat) == ParseValue(key, " " + tok, toFloat) == Some((key, toFloat(tok).value))
  {
    TokenIsWord(tok);
    assert (" " + tok)[1..] == tok;
  }

  lemma BareLineBack<V(!new)>(s: Sample<V>, fmt: V -> string, toFloat: string -> Option<V>)
    requires WellFormed(s) && Faithful(fmt, toFloat) && s.labels == []
    ensures ParseLine(PrintSample(s, fmt), toFloat) == Some((ReadKey(s), s.value))
  {
    var line, tok := PrintSample(s, fmt), fmt(s.value);
    assert IsToken(tok) && toFloat(tok) == Some(s.value);
    assert line == s.name + [' '] + tok;
    StripKeeps(line);
    StripKeeps(s.name);
    PartitionAt(s.name, ' ', tok);
    assert '{' !in line;
    assert ReadKey(s) == Key(s.name, {});
    ValueBack(ReadKey(s), tok, toFloat);
  }

  // A line of the labelled shape, whatever its label text.
  lemma LabelledLine<V>(line: string, name: string, body: string, tok: string, labels: map<string, string>,
                        toFloat: string -> Option<V>)
    requires line == name + "{" + body + "} " + tok && IsToken(name) && IsToken(tok) && toFloat(tok).Some?
    requires LabelDict(SplitLabelsSpec(body), map[]) == Some(labels)
    ensures ParseLine(line, toFloat) == Some((Key(name, Items(labels)), toFloat(tok).value))
  {
    var rest := body + ['}'] + (" " + tok);
    LineFacts(line, name, body, tok, rest);
    ValueBack(Key(name, Items(labels)), tok, toFloat);
    LabelledParse(line, name, rest, body, " " + tok, labels, toFloat);
  }

  lemma LineFacts(line: string, name: string, body: string, tok: string, rest: string)
    requires line == name + "{" + body + "} " + tok && rest == body + ['}'] + (" " + tok)
    requires IsToken(name) && IsToken(tok)
    ensures Strip(line) == line && line != [] && line[0] != '#' && '{' in line && Strip(name) == name
    ensures Partition(line, '{') == (name, true, rest) && RPartition(rest, '}') == (body, true, " " + tok)
  {
    assert line == name + ['{'] + rest;
    assert line[|name|] == '{' && line[|line| - 1] == tok[|tok| - 1];
    StripKeeps(line);
    StripKeeps(name);
    PartitionAt(name, '{', rest);
    RPartitionAt(body, '}', " " + tok);
  }

  lemma LabelledParse<V>(line: string, name: string, rest: string, body: string, tail: string,
                         labels: map<string, string>, toFloat: string -> Option<V>)
    requires Strip(line) == line && line != [] && line[0] != '#' && '{' in line
    requires Partition(line, '{') == (name, true, rest) && RPartition(rest, '}') == (body, true, tail)
    requires Strip(name) == name && LabelDict(SplitLabelsSpec(body), map[]) == Some(labels)
    ensures ParseLine(line, toFloat) == ParseValue(Key(name, Items(labels)), tail, toFloat)
  {
  }

  lemma LineBack<V(!new)>(s: Sample<V>, fmt: V -> string, toFloat: string -> Option<V>)
    requires WellFormed(s) && Faithful(fmt, toFloat)
    ensures ParseLine(PrintSample(s, fmt), toFloat) == Some((ReadKey(s), s.value))
  {
    if s.labels == [] { BareLineBack(s, fmt, toFloat); } else { LabelledLineBack(s, fmt, toFloat); }
  }

  lemma LabelledLineBack<V(!new)>(s: Sample<V>, fmt: V -> string, toFloat: string -> Option<V>)
    requires WellFormed(s) && Faithful(fmt, toFloat) && s.labels != []
    ensures ParseLine(PrintSample(s, fmt), toFloat) == Some((ReadKey(s), s.value))
  {
    var body, tok := PrintLabels(s.labels), fmt(s.value);
    var labels := LabelsBack(s.labels, body);
    PrintedShape(s, fmt, body, tok);
    LabelledLine(PrintSample(s, fmt), s.name, body, tok, labels, toFloat);
  }

  lemma PrintedShape<V>(s: Sample<V>, fmt: V -> string, body: string, tok: string)
    requires s.labels != [] && body == PrintLabels(s.labels) && tok == fmt(s.value)
    ensures PrintSample(s, fmt) == s.name + "{" + body + "} " + tok
  {
  }

  // ------------------------------------------------------------- the whole document

  lemma {:induction false} EscapeHasNoBreak(v: string)
    requires NoOtherBreak(v)
    ensures forall i | 0 <= i < |Escape(v)| :: !IsBreak(Escape(v)[i])
  {
    if v != [] {
      assert forall i | 0 <= i < |v[1..]| :: v[1..][i] == v[i + 1];
      EscapeHasNoBreak(v[1..]);
    }
  }

  lemma {:induction false} LabelsHaveNoBreak(labels: seq<(string, string)>)
    requires forall i | 0 <= i < |labels| :: IsToken(labels[i].0) && NoOtherBreak(labels[i].1)
    ensures forall i | 0 <= i < |PrintLabels(labels)| :: !IsBreak(PrintLabels(labels)[i])
  {
    if labels != [] {
      EscapeHasNoBreak(labels[0].1);
      LabelsHaveNoBreak(labels[1..]);
    }
  }

  function Printed<V>(samples: seq<Sample<V>>, fmt: V -> string): seq<string> {
    seq(|samples|, i requires 0 <= i < |samples| => PrintSample(samples[i], fmt))
  }

  lemma PrintedHasNoBreak<V(!new)>(s: Sample<V>, fmt: V -> string)
    requires WellFormed(s) && OneLine(s) && IsToken(fmt(s.value))
    ensures forall i | 0 <= i < |PrintSample(s, fmt)| :: !IsBreak(PrintSample(s, fmt)[i])
  {
    LabelsHaveNoBreak(s.labels);
  }

  lemma {:induction false} LinesBack<V(!new)>(samples: seq<Sample<V>>, fmt: V -> string, toFloat: string -> Option<V>)
    requires Faithful(fmt, toFloat) && AllWellFormed(samples) && AllOneLine(samples)
    ensures SplitLines(Print(samples, fmt)) == Printed(samples, fmt)
  {
    if samples != [] {
      var s := samples[0];
      assert s in samples && forall t | t in samples[1..] :: t in samples;
      assert IsToken(fmt(s.value));
      var line := PrintSample(s, fmt);
      PrintedHasNoBreak(s, fmt);
      LineBoundary(line, '\n', Print(samples[1..], fmt), []);
      LinesBack(samples[1..], fmt, toFloat);
      assert [] + line == line;
      assert Printed(samples, fmt) == [line] + Printed(samples[1..], fmt);
    }
  }

  ghost predicate IsReadingOf<V>(out: map<Key, V>, samples: seq<Sample<V>>) {
    && (forall k | k in out :: exists s | s in samples :: ReadKey(s) == k && out[k] == s.value)
    && (forall s | s in samples :: ReadKey(s) in out)
  }

  // Reads of these samples collect to exactly the map of their keys.
  lemma {:induction false} CollectedReads<V(!new)>(got: seq<Option<(Key, V)>>, samples: seq<Sample<V>>)
    requires |got| == |samples|
    requires forall i | 0 <= i < |got| :: got[i] == Some((ReadKey(samples[i]), samples[i].value))
    ensures IsReadingOf(Collect(got), samples)
    decreases |got|
  {
    if got != [] {
      var k := |got| - 1;
      CollectedReads(got[..k], samples[..k]);
      ReadingSnoc(Collect(got[..k]), samples[..k], samples[k]);
      assert samples == samples[..k] + [samples[k]];
    }
  }

  // The document is read as exactly the map of its read-back keys.
  lemma DocumentBack<V(!new)>(samples: seq<Sample<V>>, fmt: V -> string, toFloat: string -> Option<V>)
    requires Faithful(fmt, toFloat) && AllWellFormed(samples)
    ensures IsReadingOf(Collect(ReadAll(Printed(samples, fmt), toFloat)), samples)
  {
    var got := ReadAll(Printed(samples, fmt), toFloat);
    forall i | 0 <= i < |got| ensures got[i] == Some((ReadKey(samples[i]), samples[i].value)) {
      LineBack(samples[i], fmt, toFloat);
    }
    CollectedReads(got, samples);
  }

  lemma ReadingSnoc<V(!new)>(out: map<Key, V>, init: seq<Sample<V>>, last: Sample<V>)
    requires IsReadingOf(out, init)
    ensures IsReadingOf(out[ReadKey(last) := last.value], init + [last])
  {
    var out' := out[ReadKey(last) := last.value];
    forall k | k in out' ensures exists s | s in init + [last] :: ReadKey(s) == k && out'[k] == s.value {
      if k == ReadKey(last) {
        assert last in init + [last];
      } else {
        var s :| s in init && ReadKey(s) == k && out[k] == s.value;
        assert s in init + [last];
      }
    }
  }

  lemma ReadDocument<V(!new)>(samples: seq<Sample<V>>, fmt: V -> string, toFloat: string -> Option<V>)
    requires Faithful(fmt, toFloat) && AllWellFormed(samples) && AllOneLine(samples)
    ensures IsReadingOf(ParseSpec(Print(samples, fmt), toFloat), samples)
  {
    LinesBack(samples, fmt, toFloat);
    DocumentBack(samples, fmt, toFloat);
  }

  lemma {:induction false} ReadKeyExact<V>(s: Sample<V>)
    requires Recoverable(s)
    ensures ReadKey(s) == KeyOf(s)
  {
    forall l | l in s.labels ensures ReadLabel(l) == l {
      ReadingExact(l.1);
    }
    assert ReadLabels(s.labels) == set l | l in s.labels;
  }

  lemma {:induction false} UnrecoverableKeyIsLost<V>(s: Sample<V>, t: Sample<V>)
    requires !Recoverable(s)
    ensures ReadKey(t) != KeyOf(s)
  {
    var i :| 0 <= i < |s.labels| && HasBackslashN(s.labels[i].1);
    var l := s.labels[i];
    assert l in KeyOf(s).labels;
    if l in ReadKey(t).labels {
      var m :| m in t.labels && ReadLabel(m) == l;
      ReadingExact(m.1);
      assert false;
    }
  }

  lemma AllReadExact<V>(samples: seq<Sample<V>>)
    requires AllRecoverable(samples)
    ensures forall s | s in samples :: ReadKey(s) == KeyOf(s)
  {
    forall s | s in samples ensures ReadKey(s) == KeyOf(s) { ReadKeyExact(s); }
  }

  lemma ExactReadingIsTheMap<V(!new)>(m: map<Key, V>, samples: seq<Sample<V>>, out: map<Key, V>)
    requires Lists(samples, m) && IsReadingOf(out, samples)
    requires forall s | s in samples :: ReadKey(s) == KeyOf(s)
    ensures out == m
  {
  }

  lemma RecoverableIsReadBack<V(!new)>(m: map<Key, V>, samples: seq<Sample<V>>,
                                       fmt: V -> string, toFloat: string -> Option<V>)
    requires Faithful(fmt, toFloat) && AllWellFormed(samples) && Lists(samples, m)
    requires AllRecoverable(samples) && AllOneLine(samples)
    ensures ParseSpec(Print(samples, fmt), toFloat) == m
  {
    ReadDocument(samples, fmt, toFloat);
    AllReadExact(samples);
    ExactReadingIsTheMap(m, samples, ParseSpec(Print(samples, fmt), toFloat));
  }

  lemma UnrecoverableIsLost<V(!new)>(samples: seq<Sample<V>>, fmt: V -> string, toFloat: string -> Option<V>,
                                     s: Sample<V>)
    requires Faithful(fmt, toFloat) && AllWellFormed(samples) && AllOneLine(samples) && !Recoverable(s)
    ensures KeyOf(s) !in ParseSpec(Print(samples, fmt), toFloat)
  {
    var out, k := ParseSpec(Print(samples, fmt), toFloat), KeyOf(s);
    ReadDocument(samples, fmt, toFloat);
    if k in out {
      var t :| t in samples && ReadKey(t) == k;
      UnrecoverableKeyIsLost(s, t);
    }
  }

  // ------------------------------------------------------ what the reader can never return

  predicate Unbroken(s: string) {
    forall i | 0 <= i < |s| :: !IsBreak(s[i])
  }

  lemma {:induction false} StrippedUnbroken(s: string)
    requires Unbroken(s)
    ensures Unbroken(StripLeft(s)) && Unbroken(StripRight(s))
  {
    if s != [] {
      StrippedUnbroken(s[1..]);
      StrippedUnbroken(s[..|s| - 1]);
    }
  }

  lemma StripUnbroken(s: string)
    requires Unbroken(s)
    ensures Unbroken(Strip(s))
  {
    StrippedUnbroken(s);
    StrippedUnbroken(StripLeft(s));
  }

  lemma {:induction false} PartsUnbroken(s: string, c: char)
    requires Unbroken(s)
    ensures var (a, _, b) := Partition(s, c); Unbroken(a) && Unbroken(b)
    ensures var (a, _, b) := RPartition(s, c); Unbroken(a) && Unbroken(b)
  {
    if s != [] {
      PartsUnbroken(s[1..], c);
      PartsUnbroken(s[..|s| - 1], c);
    }
  }

  predicate AllUnbroken(parts: seq<string>) {
    forall i | 0 <= i < |parts| :: Unbroken(parts[i])
  }

  lemma {:induction false} ScannedUnbroken(st: Scan, s: string)
    requires AllUnbroken(st.parts) && Unbroken(st.buf) && Unbroken(s)
    ensures var end := ScanAll(st, s); AllUnbroken(end.parts) && Unbroken(end.buf)
    decreases |s|
  {
    if s != [] { ScannedUnbroken(ScanChar(st, s[0]), s[1..]); }
  }

  lemma {:induction false} StripPartsUnbroken(parts: seq<string>)
    requires AllUnbroken(parts)
    ensures AllUnbroken(StripParts(parts))
  {
    if parts != [] {
      StripUnbroken(parts[0]);
      StripPartsUnbroken(parts[1..]);
    }
  }

  lemma SplitUnbroken(body: string)
    requires Unbroken(body)
    ensures AllUnbroken(SplitLabelsSpec(body))
  {
    ScannedUnbroken(START, body);
    var end := ScanAll(START, body);
    StripPartsUnbroken(end.parts + [end.buf]);
  }

  lemma {:induction false} ReplacedNoOtherBreak(s: string, a: char, b: char, c: char)
    requires NoOtherBreak(s) && (IsBreak(c) ==> c == '\n')
    ensures NoOtherBreak(Replace2(s, a, b, c))
  {
    if s != [] {
      ReplacedNoOtherBreak(s[1..], a, b, c);
      if |s| >= 2 { ReplacedNoOtherBreak(s[2..], a, b, c); }
    }
  }

  lemma UnquotedNoOtherBreak(value: string)
    requires Unbroken(value)
    ensures NoOtherBreak(Unquote(value))
  {
    StripUnbroken(value);
    var v := Strip(value);
    var inner := if |v| >= 2 && v[0] == '\"' && v[|v| - 1] == '\"' then v[1..|v| - 1] else v;
    ReplacedNoOtherBreak(inner, '\\', '\"', '\"');
    var quotes := Replace2(inner, '\\', '\"', '\"');
    ReplacedNoOtherBreak(quotes, '\\', 'n', '\n');
    ReplacedNoOtherBreak(Replace2(quotes, '\\', 'n', '\n'), '\\', '\\', '\\');
  }

  lemma {:induction false} DictNoOtherBreak(parts: seq<string>, labels: map<string, string>)
    requires AllUnbroken(parts) && forall k | k in labels :: NoOtherBreak(labels[k])
    ensures var r := LabelDict(parts, labels); r.Some? ==> forall k | k in r.value :: NoOtherBreak(r.value[k])
    decreases |parts|
  {
    if parts != [] {
      var (k, eq, v) := Partition(parts[0], '=');
      PartsUnbroken(parts[0], '=');
      UnquotedNoOtherBreak(v);
      DictNoOtherBreak(parts[1..], labels[Strip(k) := Unquote(v)]);
    }
  }

  // No label value of the key has a line boundary other than the line feed.
  predicate KeyOnOneLine(k: Key) {
    forall l | l in k.labels :: NoOtherBreak(l.1)
  }

  lemma BodyOnOneLine(body: string, labels: map<string, string>, name: string)
    requires Unbroken(body) && LabelDict(SplitLabelsSpec(body), map[]) == Some(labels)
    ensures KeyOnOneLine(Key(name, Items(labels)))
  {
    SplitUnbroken(body);
    DictNoOtherBreak(SplitLabelsSpec(body), map[]);
  }

  lemma LineOnOneLine<V>(raw: string, toFloat: string -> Option<V>)
    requires Unbroken(raw)
    ensures var r := ParseLine(raw, toFloat); r.Some? ==> KeyOnOneLine(r.value.0)
  {
    var line := Strip(raw);
    StripUnbroken(raw);
    if '{' in line {
      var (name, _, rest) := Partition(line, '{');
      PartsUnbroken(line, '{');
      var (body, _, tail) := RPartition(rest, '}');
      PartsUnbroken(rest, '}');
      var labels := LabelDict(SplitLabelsSpec(body), map[]);
      if labels.Some? { BodyOnOneLine(body, labels.value, Strip(name)); }
    }
  }

  lemma {:induction false} LinesUnbroken(s: string, line: string)
    requires Unbroken(line)
    ensures AllUnbroken(LinesFrom(s, line))
    decreases |s|
  {
    if s != [] {
      LinesUnbroken(s[1..], []);
      if |s| >= 2 { LinesUnbroken(s[2..], []); }
      if !IsBreak(s[0]) { LinesUnbroken(s[1..], line + [s[0]]); }
    }
  }

  lemma {:induction false} CollectedOnOneLine<V>(got: seq<Option<(Key, V)>>)
    requires forall i | 0 <= i < |got| && got[i].Some? :: KeyOnOneLine(got[i].value.0)
    ensures forall k | k in Collect(got) :: KeyOnOneLine(k)
  {
    if got != [] { CollectedOnOneLine(got[..|got| - 1]); }
  }

  // Whatever the text, no label value the reader returns has a line boundary other than the line feed.
  lemma ReaderKeepsToOneLine<V>(text: string, toFloat: string -> Option<V>, k: Key)
    requires k in ParseSpec(text, toFloat)
    ensures KeyOnOneLine(k)
  {
    var lines := SplitLines(text);
    LinesUnbroken(text, []);
    var got := ReadAll(lines, toFloat);
    forall i | 0 <= i < |got| && got[i].Some? ensures KeyOnOneLine(got[i].value.0) {
      LineOnOneLine(lines[i], toFloat);
    }
    CollectedOnOneLine(got);
  }

  // ------------------------------------------------------------------ the round trip

  // MAIN RESULT.  Printing any map of samples and reading the text gives that map back if and only if no
  // label value holds a backslash directly followed by the letter n, or a line boundary other than the line feed.
  lemma RoundTrip<V(!new)>(m: map<Key, V>, samples: seq<Sample<V>>, fmt: V -> string, toFloat: string -> Option<V>)
    requires Faithful(fmt, toFloat) && AllWellFormed(samples) && Lists(samples, m)
    ensures ParseSpec(Print(samples, fmt), toFloat) == m <==> AllRecoverable(samples) && AllOneLine(samples)
  {
    if !AllOneLine(samples) {
      var i :| 0 <= i < |samples| && !OneLine(samples[i]);
      BrokenIsLost(samples[i], Print(samples, fmt), toFloat);
      assert samples[i] in samples && KeyOf(samples[i]) in m;
    } else if AllRecoverable(samples) {
      RecoverableIsReadBack(m, samples, fmt, toFloat);
    } else {
      var i :| 0 <= i < |samples| && !Recoverable(samples[i]);
      UnrecoverableIsLost(samples, fmt, toFloat, samples[i]);
      assert samples[i] in samples && KeyOf(samples[i]) in m;
    }
  }

  lemma BrokenIsLost<V>(s: Sample<V>, text: string, toFloat: string -> Option<V>)
    requires !OneLine(s)
    ensures KeyOf(s) !in ParseSpec(text, toFloat)
  {
    var i :| 0 <= i < |s.labels| && !NoOtherBreak(s.labels[i].1);
    assert s.labels[i] in KeyOf(s).labels;
    if KeyOf(s) in ParseSpec(text, toFloat) { ReaderKeepsToOneLine(text, toFloat, KeyOf(s)); }
  }

  // A carriage return in a label value really splits the printed line.
  lemma CarriageReturnSplitsTheLine()
    ensures SplitLines("m{a=\"" + Escape("\r") + "\"} 1\n") == ["m{a=\"", "\"} 1"]
  {
    assert Escape("\r") == "\r" + Escape("\r"[1..]);
    var before, after := "m{a=\"", "\"} 1";
    assert "m{a=\"" + Escape("\r") + "\"} 1\n" == before + ['\r'] + (after + "\n");
    LineBoundary(before, '\r', after + "\n", []);
    assert after + "\n" == after + ['\n'] + [];
    LineBoundary(after, '\n', [], []);
    assert [] + before == before && [] + after == after;
  }

  // The pair is really lost: the two-character value comes back with a line feed.
  lemma BackslashNIsLost()
    ensures Unquote("\"" + Escape("\\n") + "\"") == "\\\n" != "\\n"
  {
    UnquoteQuoted("\\n");
    assert Reading("\\n") == "\\\n" + Reading("\\n"[2..]);
  }
}
