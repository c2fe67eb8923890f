/**
The Prometheus text-exposition reader: the string operations it is built from,
the label splitter and unquoter, and the tolerant line-by-line parser.
Values are generic: `toFloat` stands for the number reader and may reject a token.
 */
module PromText {

  import opened Options

  // A sample's key: the family name and the set of its (label, value) pairs.
  datatype Key = Key(name: string, labels: set<(string, string)>)

  // ---------------------------------------------------------------- characters

  // Line boundaries recognised by splitlines.
  predicate IsBreak(c: char) {
    '\n' <= c <= '\r' || '\U{1C}' <= c <= '\U{1E}' || c == '\U{85}' || '\U{2028}' <= c <= '\U{2029}'
  }

  // Whitespace recognised by strip and split.
  predicate IsSpace(c: char) {
    || IsBreak(c)
    || c == ' ' || c == '\t' || c == '\U{1F}' || c == '\U{A0}' || c == '\U{1680}'
    || '\U{2000}' <= c <= '\U{200A}' || c == '\U{202F}' || c == '\U{205F}' || c == '\U{3000}'
  }

  predicate IsWhite(s: string) {
    forall i | 0 <= i < |s| :: IsSpace(s[i])
  }

  // ------------------------------------------------------------ string helpers

  predicate StartsWith(s: string, p: string) {
    |p| <= |s| && s[..|p|] == p
  }

  predicate EndsWith(s: string, p: string) {
    |p| <= |s| && s[|s| - |p|..] == p
  }

  function StripLeft(s: string): string {
    if s != [] && IsSpace(s[0]) then StripLeft(s[1..]) else s
  }

  function StripRight(s: string): string {
    if s != [] && IsSpace(s[|s| - 1]) then StripRight(s[..|s| - 1]) else s
  }

  function Strip(s: string): string {
    StripRight(StripLeft(s))
  }

  // str.partition: the text before the first `c`, whether there was one, and the rest.
  function Partition(s: string, c: char): (string, bool, string) {
    if s == [] then ([], false, [])
    else if s[0] == c then ([], true, s[1..])
    else var (a, found, b) := Partition(s[1..], c); ([s[0]] + a, found, b)
  }

  // str.rpartition: split at the LAST `c`; without one everything is in the third part.
  function RPartition(s: string, c: char): (string, bool, string) {
    if s == [] then ([], false, [])
    else if s[|s| - 1] == c then (s[..|s| - 1], true, [])
    else var (a, found, b) := RPartition(s[..|s| - 1], c); (a, found, b + [s[|s| - 1]])
  }

  // Leftmost, non-overlapping replacement of the two characters `a b` by `c`.
  function Replace2(s: string, a: char, b: char, c: char): string {
    if |s| >= 2 && s[0] == a && s[1] == b then [c] + Replace2(s[2..], a, b, c)
    else if s == [] then []
    else [s[0]] + Replace2(s[1..], a, b, c)
  }

  // The characters before the first whitespace.
  function TakeWord(s: string): string {
    if s == [] || IsSpace(s[0]) then [] else [s[0]] + TakeWord(s[1..])
  }

  // s.split()[0], or None when s holds no token.
  function FirstToken(s: string): Option<string> {
    var t := StripLeft(s);
    if t == [] then None else Some(TakeWord(t))
  }

  // str.splitlines: "\r\n" is one boundary, and a final boundary opens no further line.
  function SplitLines(s: string): seq<string> {
    LinesFrom(s, [])
  }

  function LinesFrom(s: string, line: string): seq<string>
    decreases |s|
  {
    if s == [] then (if line == [] then [] else [line])
    else if |s| >= 2 && s[0] == '\r' && s[1] == '\n' then [line] + LinesFrom(s[2..], [])
    else if IsBreak(s[0]) then [line] + LinesFrom(s[1..], [])
    else LinesFrom(s[1..], line + [s[0]])
  }

  // ------------------------------------------------------------- label parsing

  // The scanner state of the label splitter.
  datatype Scan = Scan(parts: seq<string>, buf: string, inQuotes: bool, escaped: bool)

  const START := Scan([], [], false, false)

  function ScanChar(st: Scan, ch: char): Scan {
    if st.escaped then st.(buf := st.buf + [ch], escaped := false)
    else if ch == '\\' && st.inQuotes then st.(buf := st.buf + [ch], escaped := true)
    else if ch == '\"' then st.(buf := st.buf + [ch], inQuotes := !st.inQuotes)
    else if ch == ',' && !st.inQuotes then st.(parts := st.parts + [st.buf], buf := [])
    else st.(buf := st.buf + [ch])
  }

  function ScanAll(st: Scan, s: string): Scan
    decreases |s|
  {
    if s == [] then st else ScanAll(ScanChar(st, s[0]), s[1..])
  }

  // [p.strip() for p in parts if p.strip()]
  function StripParts(parts: seq<string>): seq<string> {
    if parts == [] then []
    else (if Strip(parts[0]) == [] then [] else [Strip(parts[0])]) + StripParts(parts[1..])
  }

  function SplitLabelsSpec(body: string): seq<string> {
    var st := ScanAll(START, body);
    StripParts(st.parts + [st.buf])
  }

  lemma {:induction false} ScanSnoc(st: Scan, s: string, ch: char)
    ensures ScanAll(st, s + [ch]) == ScanChar(ScanAll(st, s), ch)
    decreases |s|
  {
    if s == [] {
    } else {
      assert (s + [ch])[1..] == s[1..] + [ch];
      ScanSnoc(ScanChar(st, s[0]), s[1..], ch);
    }
  }

  lemma {:induction false} ScanConcat(st: Scan, s: string, t: string)
    ensures ScanAll(st, s + t) == ScanAll(ScanAll(st, s), t)
    decreases |s|
  {
    if s == [] {
      assert s + t == t;
    } else {
      assert (s + t)[1..] == s[1..] + t;
      ScanConcat(ScanChar(st, s[0]), s[1..], t);
    }
  }

  method SplitLabels(body: string) returns (out: seq<string>)
    ensures out == SplitLabelsSpec(body)
  {
    var parts: seq<string>, buf: string, inQuotes, escaped := [], [], false, false;
    for i := 0 to |body|
      invariant Scan(parts, buf, inQuotes, escaped) == ScanAll(START, body[..i])
    {
      var ch := body[i];
      assert body[..i + 1] == body[..i] + [ch];
      ScanSnoc(START, body[..i], ch);
      if escaped {
        buf := buf + [ch];
        escaped := false;
        continue;
      }
      if ch == '\\' && inQuotes {
        buf := buf + [ch];
        escaped := true;
        continue;
      }
      if ch == '\"' {
        inQuotes := !inQuotes;
        buf := buf + [ch];
        continue;
      }
      if ch == ',' && !inQuotes {
        parts := parts + [buf];
        buf := [];
        continue;
      }
      buf := buf + [ch];
    }
    assert body[..|body|] == body;
    out := StripParts(parts + [buf]);
  }

  function Unescape(v: string): string {
    Replace2(Replace2(Replace2(v, '\\', '\"', '\"'), '\\', 'n', '\n'), '\\', '\\', '\\')
  }

  function Unquote(value: string): string {
    var v := Strip(value);
    Unescape(if |v| >= 2 && v[0] == '\"' && v[|v| - 1] == '\"' then v[1..|v| - 1] else v)
  }

  // The label dictionary of the parts, later ones overriding; None when a part has no '='.
  function LabelDict(parts: seq<string>, labels: map<string, string>): Option<map<string, string>>
    decreases |parts|
  {
    if parts == [] then Some(labels)
    else
      var (k, eq, v) := Partition(parts[0], '=');
      if !eq then None else LabelDict(parts[1..], labels[Strip(k) := Unquote(v)])
  }

  function Items(labels: map<string, string>): set<(string, string)> {
    set k | k in labels :: (k, labels[k])
  }

  // ---------------------------------------------------------------- the parser

  // What one raw line contributes: nothing, or a key with its value.
  function ParseLine<V>(raw: string, toFloat: string -> Option<V>): Option<(Key, V)> {
    var line := Strip(raw);
    if line == [] || line[0] == '#' then None
    else if '{' in line then
      var (name, _, rest) := Partition(line, '{');
      var (body, sep, tail) := RPartition(rest, '}');
      if !sep then None
      else match LabelDict(SplitLabelsSpec(body), map[])
        case None => None
        case Some(labels) => ParseValue(Key(Strip(name), Items(labels)), tail, toFloat)
    else
      var (name, _, tail) := Partition(line, ' ');
      ParseValue(Key(Strip(name), {}), tail, toFloat)
  }

  function ParseValue<V>(key: Key, tail: string, toFloat: string -> Option<V>): Option<(Key, V)> {
    match FirstToken(tail)
    case None => None
    case Some(tok) =>
      match toFloat(tok)
      case None => None
      case Some(v) => Some((key, v))
  }

  // A later line with the same key replaces the earlier one.
  function Collect<V>(got: seq<Option<(Key, V)>>): map<Key, V> {
    if got == [] then map[]
    else
      var before := Collect(got[..|got| - 1]);
      match got[|got| - 1]
      case None => before
      case Some((key, v)) => before[key := v]
  }

  function ReadAll<V>(lines: seq<string>, toFloat: string -> Option<V>): seq<Option<(Key, V)>> {
    seq(|lines|, i requires 0 <= i < |lines| => ParseLine(lines[i], toFloat))
  }

  function ParseSpec<V>(text: string, toFloat: string -> Option<V>): map<Key, V> {
    Collect(ReadAll(SplitLines(text), toFloat))
  }

  // The label loop of the parser: a part without '=' abandons the line.
  method ReadLabels(parts: seq<string>) returns (bad: bool, labels: map<string, string>)
    ensures LabelDict(parts, map[]) == if bad then None else Some(labels)
  {
    bad, labels := false, map[];
    for i := 0 to |parts|
      invariant LabelDict(parts, map[]) == LabelDict(parts[i..], labels)
    {
      var (k, eq, v) := Partition(parts[i], '=');
      assert parts[i..][0] == parts[i] && parts[i..][1..] == parts[i + 1..];
      if !eq {
        bad := true;
        return;
      }
      labels := labels[Strip(k) := Unquote(v)];
    }
  }

  // One line: its key and value, or nothing where the reader skips it.
  method ReadLine<V>(raw: string, toFloat: string -> Option<V>) returns (r: Option<(Key, V)>)
    ensures r == ParseLine(raw, toFloat)
  {
    var line := Strip(raw);
    if line == [] || line[0] == '#' {
      return None;
    }
    var name, tail;
    var labels: map<string, string> := map[];
    if '{' in line {
      var (before, _, rest) := Partition(line, '{');
      var (body, sep, after) := RPartition(rest, '}');
      if !sep {
        return None;
      }
      var parts := SplitLabels(body);
      var bad;
      bad, labels := ReadLabels(parts);
      if bad {
        return None;
      }
      name, tail := before, after;
    } else {
      var (before, _, after) := Partition(line, ' ');
      name, tail := before, after;
      assert Items(labels) == {};
    }
    r := ParseValue(Key(Strip(name), Items(labels)), tail, toFloat);
  }

  method ParseProm<V>(text: string, toFloat: string -> Option<V>) returns (out: map<Key, V>)
    ensures out == ParseSpec(text, toFloat)
  {
    out := map[];
    var lines := SplitLines(text);
    ghost var got := ReadAll(lines, toFloat);
    for i := 0 to |lines|
      invariant out == Collect(got[..i])
    {
      assert got[..i + 1][..i] == got[..i];
      var read := ReadLine(lines[i], toFloat);
      if read.Some? {
        out := out[read.value.0 := read.value.1];
      }
    }
    assert got[..|lines|] == got;
  }
}
