/**
The fuzz input splitter: n slices at lengths taken from the data's own leading bytes.
 */
module Splitter {
  import opened Numbers

  type Byte = b: int | 0 <= b < 256

  // The length bytes in front of the payload.
  function LengthCount(data: seq<Byte>, n: nat): nat {
    Min(|data|, if n == 0 then 0 else n - 1)
  }

  // Slices of `rest` at the given lengths, each cut short where the data ends, and what is left.
  function Cut(lens: seq<Byte>, rest: seq<Byte>): (seq<seq<Byte>>, seq<Byte>) {
    if lens == [] then ([], rest)
    else
      var take := Min(lens[0], |rest|);
      var (out, left) := Cut(lens[1..], rest[take..]);
      ([rest[..take]] + out, left)
  }

  // `count` slices: the remainder first, then empty ones.
  function Fill(rest: seq<Byte>, count: nat): seq<seq<Byte>>
    decreases count
  {
    if count == 0 then [] else [rest] + Fill([], count - 1)
  }

  function SplitSpec(data: seq<Byte>, n: nat): seq<seq<Byte>> {
    var m := LengthCount(data, n);
    var (out, left) := Cut(data[..m], data[m..]);
    out + Fill(left, if n >= |out| then n - |out| else 0)
  }

  lemma {:induction false} CutSnoc(lens: seq<Byte>, l: Byte, rest: seq<Byte>)
    ensures var (out, left) := Cut(lens, rest);
            var take := Min(l, |left|);
            |out| == |lens| && Cut(lens + [l], rest) == (out + [left[..take]], left[take..])
    decreases |lens|
  {
    if lens == [] {
      var take := Min(l, |rest|);
      assert lens + [l] == [l] && [l][1..] == [];
      var out: seq<seq<Byte>> := [];
      assert [rest[..take]] + out == out + [rest[..take]];
    } else {
      var take := Min(lens[0], |rest|);
      CutSnoc(lens[1..], l, rest[take..]);
      var (out, left) := Cut(lens[1..], rest[take..]);
      var next := Min(l, |left|);
      assert (lens + [l])[1..] == lens[1..] + [l];
      assert [rest[..take]] + (out + [left[..next]]) == [rest[..take]] + out + [left[..next]];
    }
  }

  lemma {:induction false} FillSnoc(rest: seq<Byte>, count: nat)
    ensures Fill(rest, count + 1) == Fill(rest, count) + [if count == 0 then rest else []]
    decreases count
  {
    if count > 0 { FillSnoc([], count - 1); }
  }

  method Split(data: seq<Byte>, n: nat) returns (out: seq<seq<Byte>>)
    ensures out == SplitSpec(data, n)
  {
    var m := LengthCount(data, n);
    var cut, rest := CutAll(data[..m], data[m..]);
    out := FillRest(cut, rest, n);
  }

  method CutAll(lens: seq<Byte>, payload: seq<Byte>) returns (out: seq<seq<Byte>>, rest: seq<Byte>)
    ensures Cut(lens, payload) == (out, rest)
  {
    out, rest := [], payload;
    for i := 0 to |lens|
      invariant Cut(lens[..i], payload) == (out, rest)
    {
      CutSnoc(lens[..i], lens[i], payload);
      assert lens[..i + 1] == lens[..i] + [lens[i]];
      var take := Min(lens[i], |rest|);
      out := out + [rest[..take]];
      rest := rest[take..];
    }
    assert lens[..|lens|] == lens;
  }

  // The remaining slices: what is left, then empty ones.
  method FillRest(cut: seq<seq<Byte>>, left: seq<Byte>, n: nat) returns (out: seq<seq<Byte>>)
    ensures out == cut + Fill(left, if n >= |cut| then n - |cut| else 0)
  {
    out := cut;
    var rest := left;
    while |out| < n
      invariant |cut| <= |out| && (|out| <= n || out == cut)
      invariant out == cut + Fill(left, |out| - |cut|) && rest == if out == cut then left else []
    {
      FillSnoc(left, |out| - |cut|);
      out := out + [rest];
      rest := [];
    }
  }

  // ------------------------------------------------------------------------ laws

  function Concat(parts: seq<seq<Byte>>): seq<Byte> {
    if parts == [] then [] else parts[0] + Concat(parts[1..])
  }

  lemma {:induction false} ConcatOfConcat(a: seq<seq<Byte>>, b: seq<seq<Byte>>)
    ensures Concat(a + b) == Concat(a) + Concat(b)
  {
    if a == [] {
      assert a + b == b;
    } else {
      assert (a + b)[1..] == a[1..] + b;
      ConcatOfConcat(a[1..], b);
    }
  }

  lemma {:induction false} CutConserves(lens: seq<Byte>, rest: seq<Byte>)
    ensures var (out, left) := Cut(lens, rest); |out| == |lens| && Concat(out) + left == rest
    decreases |lens|
  {
    if lens != [] {
      var take := Min(lens[0], |rest|);
      CutConserves(lens[1..], rest[take..]);
      var (out, left) := Cut(lens[1..], rest[take..]);
      assert ([rest[..take]] + out)[1..] == out;
      assert rest == rest[..take] + rest[take..];
    }
  }

  lemma {:induction false} FillConserves(rest: seq<Byte>, count: nat)
    ensures |Fill(rest, count)| == count && (count > 0 ==> Concat(Fill(rest, count)) == rest)
    decreases count
  {
    if count > 0 {
      FillConserves([], count - 1);
      assert Fill(rest, count)[1..] == Fill([], count - 1);
      if count == 1 { assert Fill([], 0) == []; }
    }
  }

  // MAIN RESULT.  For n >= 1 there are exactly n slices and, in order, they are all of the data after the
  // length bytes: nothing is lost, repeated or moved.
  lemma SplitConserves(data: seq<Byte>, n: nat)
    requires n >= 1
    ensures |SplitSpec(data, n)| == n && Concat(SplitSpec(data, n)) == data[LengthCount(data, n)..]
  {
    var m := LengthCount(data, n);
    CutConserves(data[..m], data[m..]);
    var (out, left) := Cut(data[..m], data[m..]);
    FillConserves(left, n - |out|);
    ConcatOfConcat(out, Fill(left, n - |out|));
  }

  // The input that asks for given slices: their lengths, then the slices.
  function Lengths(parts: seq<seq<Byte>>): seq<Byte>
    requires forall i | 0 <= i < |parts| :: |parts[i]| <= 255
  {
    if parts == [] then [] else [|parts[0]|] + Lengths(parts[1..])
  }

  lemma {:induction false} LengthsIs(parts: seq<seq<Byte>>)
    requires forall i | 0 <= i < |parts| :: |parts[i]| <= 255
    ensures |Lengths(parts)| == |parts|
  {
    if parts != [] { LengthsIs(parts[1..]); }
  }

  lemma CutFirst(part: seq<Byte>, lens: seq<Byte>, rest: seq<Byte>)
    requires |part| <= 255
    ensures Cut([|part|] + lens, part + rest) == ([part] + Cut(lens, rest).0, Cut(lens, rest).1)
  {
    var l: Byte := |part|;
    assert ([l] + lens)[1..] == lens;
    assert (part + rest)[..|part|] == part && (part + rest)[|part|..] == rest;
  }

  lemma FirstPart(parts: seq<seq<Byte>>, last: seq<Byte>)
    requires parts != [] && forall i | 0 <= i < |parts| :: |parts[i]| <= 255
    ensures Lengths(parts) == [|parts[0]|] + Lengths(parts[1..]) && parts == [parts[0]] + parts[1..]
    ensures Concat(parts) + last == parts[0] + (Concat(parts[1..]) + last)
  {
  }

  lemma {:induction false} CutOfLengths(parts: seq<seq<Byte>>, last: seq<Byte>)
    requires forall i | 0 <= i < |parts| :: |parts[i]| <= 255
    ensures Cut(Lengths(parts), Concat(parts) + last) == (parts, last)
    decreases |parts|
  {
    if parts == [] {
      assert Concat(parts) + last == last;
    } else {
      CutOfLengths(parts[1..], last);
      CutFirst(parts[0], Lengths(parts[1..]), Concat(parts[1..]) + last);
      FirstPart(parts, last);
    }
  }

  // MAIN RESULT.  Every list of slices whose all but last have at most 255 bytes is the split of the input
  // made of those lengths followed by the slices.
  lemma SplitOfLengths(parts: seq<seq<Byte>>, last: seq<Byte>)
    requires forall i | 0 <= i < |parts| :: |parts[i]| <= 255
    ensures SplitSpec(Lengths(parts) + Concat(parts) + last, |parts| + 1) == parts + [last]
  {
    var lens, payload := Lengths(parts), Concat(parts) + last;
    var data := Lengths(parts) + Concat(parts) + last;
    LengthsIs(parts);
    assert data == lens + payload && data[..|lens|] == lens && data[|lens|..] == payload;
    CutOfLengths(parts, last);
    assert Fill(last, 1) == [last] + Fill([], 0) == [last];
  }

  // The first k length bytes added up.
  function Total(lens: seq<Byte>, k: nat): nat
    requires k <= |lens|
  {
    if k == 0 then 0 else Total(lens, k - 1) + lens[k - 1]
  }

  // The payload from where the lengths before slice i end to where its own ends, both capped by the payload.
  function SliceAt(lens: seq<Byte>, payload: seq<Byte>, i: nat): seq<Byte>
    requires i < |lens|
  {
    TotalRises(lens, i);
    payload[Min(Total(lens, i), |payload|)..Min(Total(lens, i + 1), |payload|)]
  }

  lemma TotalRises(lens: seq<Byte>, i: nat)
    requires i < |lens|
    ensures Total(lens, i) <= Total(lens, i + 1)
  {
  }

  lemma {:induction false} CutIs(lens: seq<Byte>, payload: seq<Byte>, n: nat)
    requires n <= |lens|
    ensures var (out, left) := Cut(lens[..n], payload);
            && |out| == n && left == payload[Min(Total(lens, n), |payload|)..]
            && forall i | 0 <= i < n :: out[i] == SliceAt(lens, payload, i)
  {
    if n == 0 {
      assert lens[..0] == [] && payload[0..] == payload;
    } else {
      CutIs(lens, payload, n - 1);
      assert lens[..n] == lens[..n - 1] + [lens[n - 1]];
      CutSnoc(lens[..n - 1], lens[n - 1], payload);
      TotalRises(lens, n - 1);
      var at, left := Min(Total(lens, n - 1), |payload|), Cut(lens[..n - 1], payload).1;
      var take := Min(lens[n - 1], |left|);
      assert at + take == Min(Total(lens, n), |payload|);
      assert left[..take] == payload[at..at + take] && left[take..] == payload[at + take..];
    }
  }

  lemma {:induction false} FillIs(rest: seq<Byte>, count: nat, i: nat)
    requires i < count
    ensures |Fill(rest, count)| == count && Fill(rest, count)[i] == if i == 0 then rest else []
    decreases count
  {
    if count > 1 { FillIs([], count - 1, if i == 0 then 0 else i - 1); }
  }

  // MAIN RESULT.  Every slice in closed form: slice i runs from where the lengths before it end to where its own ends,
  // as far as the data goes; the first one without a length byte takes the rest, and those after it are empty.  For no
  // slices there is nothing.
  lemma SplitIs(data: seq<Byte>, n: nat, i: nat)
    requires i < n
    ensures var m := LengthCount(data, n);
            var lens, payload := data[..m], data[m..];
            && m == (if |data| < n - 1 then |data| else n - 1) && |SplitSpec(data, n)| == n
            && SplitSpec(data, n)[i] ==
               if i < m then SliceAt(lens, payload, i)
               else if i == m then payload[Min(Total(lens, m), |payload|)..] else []
    ensures SplitSpec(data, 0) == []
  {
    var m := LengthCount(data, n);
    var lens, payload := data[..m], data[m..];
    CutIs(lens, payload, m);
    assert lens[..m] == lens;
    var (out, left) := Cut(lens, payload);
    FillIs(left, n - m, if i < m then 0 else i - m);
    NoSlices(data);
  }

  lemma NoSlices(data: seq<Byte>)
    ensures SplitSpec(data, 0) == []
  {
    assert data[..0] == [];
  }
}
