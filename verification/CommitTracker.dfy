/**
Quorum commit ranking: the leader's commit position is the quorum-th highest of its own
and the reported durable positions, bounded by its own, and never moves back.
 */
module CommitTracker {
  import opened Options

  // ------------------------------------------------------------- ranking

  function Insert(x: nat, s: seq<nat>): seq<nat> {
    if s == [] || x >= s[0] then [x] + s else [s[0]] + Insert(x, s[1..])
  }

  // The positions, highest first.
  function Descending(s: seq<nat>): seq<nat> {
    if s == [] then [] else Insert(s[0], Descending(s[1..]))
  }

  // How many members hold at least `v`.
  function Holders(s: seq<nat>, v: nat): nat {
    if s == [] then 0 else (if s[0] >= v then 1 else 0) + Holders(s[1..], v)
  }

  ghost predicate Sorted(s: seq<nat>) {
    forall i, j | 0 <= i < j < |s| :: s[i] >= s[j]
  }

  lemma {:induction false} InsertIs(x: nat, s: seq<nat>, v: nat)
    requires Sorted(s)
    ensures |Insert(x, s)| == |s| + 1 && Sorted(Insert(x, s))
    ensures forall y :: y in Insert(x, s) <==> y == x || y in s
    ensures Holders(Insert(x, s), v) == Holders(s, v) + if x >= v then 1 else 0
  {
    if s == [] || x >= s[0] {
      assert ([x] + s)[1..] == s;
    } else {
      InsertIs(x, s[1..], v);
      var rest := Insert(x, s[1..]);
      assert ([s[0]] + rest)[1..] == rest;
      assert s == [s[0]] + s[1..];
      assert forall i | 0 <= i < |rest| :: rest[i] in rest;
    }
  }

  lemma {:induction false} DescendingIs(s: seq<nat>, v: nat)
    ensures |Descending(s)| == |s| && Sorted(Descending(s))
    ensures Holders(Descending(s), v) == Holders(s, v)
  {
    if s != [] {
      DescendingIs(s[1..], v);
      InsertIs(s[0], Descending(s[1..]), v);
    }
  }

  lemma {:induction false} HoldersOfSorted(s: seq<nat>, v: nat, q: nat)
    requires Sorted(s) && 1 <= q <= |s|
    ensures Holders(s, v) >= q <==> s[q - 1] >= v
  {
    if s[0] < v {
      NoHolders(s, v);
    } else if q > 1 {
      HoldersOfSorted(s[1..], v, q - 1);
    }
  }

  lemma {:induction false} NoHolders(s: seq<nat>, v: nat)
    requires Sorted(s) && (s != [] ==> s[0] < v)
    ensures Holders(s, v) == 0
  {
    if s != [] { NoHolders(s[1..], v); }
  }

  // MAIN RESULT.  The q-th highest position is the greatest one at least q members hold: a position is
  // held by q members exactly when it does not exceed the rank.
  lemma RankIsQuorumHeld(s: seq<nat>, q: nat, v: nat)
    requires 1 <= q <= |s|
    ensures |Descending(s)| == |s|
    ensures Holders(s, v) >= q <==> v <= Descending(s)[q - 1]
  {
    DescendingIs(s, v);
    HoldersOfSorted(Descending(s), v, q);
  }

  // ------------------------------------------------------------- the tracker

  // `v` is durable on a quorum and on the leader itself.
  ghost predicate QuorumHeld(own: nat, reported: seq<nat>, quorum: nat, v: nat) {
    v <= own && Holders([own] + reported, v) >= quorum
  }

  class CommitTracker {
    var reported: seq<nat>
    var commit: nat
    const quorum: nat

    ghost predicate Valid()
      reads this
    {
      1 <= quorum <= |reported| + 1
    }

    constructor (followers: nat, clusterSize: nat)
      requires clusterSize > followers && followers + 1 > clusterSize / 2
      ensures Valid() && commit == 0 && |reported| == followers && forall i | 0 <= i < followers :: reported[i] == 0
      ensures 2 * quorum > clusterSize >= 2 * (quorum - 1)
    {
      reported := seq(followers, i => 0);
      commit := 0;
      quorum := clusterSize / 2 + 1;
    }

    // The latest report replaces the slot, even when it is lower.
    method OnDurable(follower: nat, durable: nat)
      requires Valid() && follower < |reported|
      modifies this
      ensures Valid() && commit == old(commit) && reported == old(reported)[follower := durable]
    {
      reported := reported[follower := durable];
    }

    method ResetReports()
      requires Valid()
      modifies this
      ensures Valid() && commit == old(commit) && |reported| == old(|reported|)
      ensures forall i | 0 <= i < |reported| :: reported[i] == 0
    {
      for i := 0 to |reported|
        invariant Valid() && commit == old(commit) && |reported| == old(|reported|)
        invariant forall k | 0 <= k < i :: reported[k] == 0
      {
        reported := reported[i := 0];
      }
    }

    // Commit moves to the greatest quorum-held position when that is higher, and never moves back.
    method Advance(own: nat) returns (r: Option<nat>)
      requires Valid()
      modifies this
      ensures Valid() && reported == old(reported)
      ensures commit == old(commit) || QuorumHeld(own, reported, quorum, commit)
      ensures forall v: nat | QuorumHeld(own, reported, quorum, v) :: v <= commit
      ensures commit >= old(commit)
      ensures r == if commit > old(commit) then Some(commit) else None
    {
      var scratch := [own] + reported;
      ghost var given := scratch;
      scratch := Descending(scratch);
      DescendingIs(given, 0);
      var ranked := if scratch[quorum - 1] < own then scratch[quorum - 1] else own;
      forall v: nat ensures QuorumHeld(own, reported, quorum, v) <==> v <= ranked {
        RankIsQuorumHeld(given, quorum, v);
      }
      if ranked > commit {
        commit := ranked;
        r := Some(ranked);
      } else {
        r := None;
      }
    }
  }
}
