/** The start-cell choice shared by the first-choice, random-choice and
    brute-force players: a fixed list of six candidate cells, filtered to
    those no committed placement uses, from which two are taken. */
module Placement {
  import opened Santorini

  /** The six candidate start cells, in the order the players try them. */
  const StartCandidates: seq<Coord> := [(0, 0), (0, 1), (0, 2), (0, 3), (0, 4), (1, 0)]

  predicate Distinct<T(==)>(s: seq<T>) {
    forall i, j :: 0 <= i < j < |s| ==> s[i] != s[j]
  }

  /** c is used by no worker of any committed placement. */
  predicate Free(placed: seq<WorkerPair>, c: Coord) {
    forall k :: 0 <= k < |placed| ==> placed[k].0 != c && placed[k].1 != c
  }

  /** The candidates that are still free, in candidate order. */
  function KeepFree(cands: seq<Coord>, placed: seq<WorkerPair>): (r: seq<Coord>)
    ensures |r| <= |cands|
  {
    if cands == [] then []
    else if Free(placed, cands[0]) then [cands[0]] + KeepFree(cands[1..], placed)
    else KeepFree(cands[1..], placed)
  }

  /** KeepFree keeps exactly the free candidates. */
  lemma {:induction false} KeepFreeMembers(cands: seq<Coord>, placed: seq<WorkerPair>, c: Coord)
    ensures c in KeepFree(cands, placed) <==> c in cands && Free(placed, c)
  {
    if cands != [] {
      KeepFreeMembers(cands[1..], placed, c);
      assert cands == [cands[0]] + cands[1..];
    }
  }

  /** KeepFree of a duplicate-free list is duplicate-free. */
  lemma {:induction false} KeepFreeDistinct(cands: seq<Coord>, placed: seq<WorkerPair>)
    requires Distinct(cands)
    ensures Distinct(KeepFree(cands, placed))
  {
    if cands != [] {
      KeepFreeDistinct(cands[1..], placed);
      KeepFreeMembers(cands[1..], placed, cands[0]);
      var rest := KeepFree(cands[1..], placed);
      if Free(placed, cands[0]) {
        var r := [cands[0]] + rest;
        forall i, j | 0 <= i < j < |r| ensures r[i] != r[j] {
          if i == 0 {
            assert r[j] in rest;
          } else {
            assert r[i] == rest[i - 1] && r[j] == rest[j - 1];
          }
        }
      }
    }
  }

  /** The position of the first free candidate, or |cands| when none is free. */
  function FirstFree(cands: seq<Coord>, placed: seq<WorkerPair>): (n: nat)
    ensures n <= |cands|
    ensures forall k :: 0 <= k < n ==> !Free(placed, cands[k])
    ensures n < |cands| ==> Free(placed, cands[n])
  {
    if cands == [] || Free(placed, cands[0]) then 0 else 1 + FirstFree(cands[1..], placed)
  }

  /** KeepFree skips the used candidates before the first free one, keeps that
      one, and carries on after it. */
  lemma {:induction false} KeepFreeSkips(cands: seq<Coord>, placed: seq<WorkerPair>)
    ensures var n := FirstFree(cands, placed);
      KeepFree(cands, placed) == if n < |cands| then [cands[n]] + KeepFree(cands[n + 1..], placed) else []
  {
    if cands != [] && !Free(placed, cands[0]) {
      KeepFreeSkips(cands[1..], placed);
      var n := FirstFree(cands[1..], placed);
      if n < |cands[1..]| {
        assert cands[1..][n + 1..] == cands[n + 2..];
      }
    } else if cands != [] {
      assert cands[0 + 1..] == cands[1..];
    }
  }

  /** The free candidates of the fixed list. */
  function FreeCandidates(placed: seq<WorkerPair>): (r: seq<Coord>)
    ensures Distinct(r)
    ensures forall c :: c in r <==> c in StartCandidates && Free(placed, c)
    ensures forall c :: c in r ==> OnBoard(c)
  {
    KeepFreeDistinct(StartCandidates, placed);
    forall c ensures c in KeepFree(StartCandidates, placed) <==> c in StartCandidates && Free(placed, c) {
      KeepFreeMembers(StartCandidates, placed, c);
    }
    KeepFree(StartCandidates, placed)
  }

  /** The first two free candidates, or None where the library indexes past the
      end of the list (a panic) because fewer than two are free. */
  function FirstTwoFree(placed: seq<WorkerPair>): (r: Option<WorkerPair>)
    ensures r.None? <==> |FreeCandidates(placed)| < 2
    ensures r.Some? ==> r.value.0 != r.value.1
    ensures r.Some? ==> OnBoard(r.value.0) && OnBoard(r.value.1)
    ensures r.Some? ==> Free(placed, r.value.0) && Free(placed, r.value.1)
    ensures r.Some? ==> exists i, j ::
      && 0 <= i < j < |StartCandidates|
      && StartCandidates[i] == r.value.0 && StartCandidates[j] == r.value.1
      && forall k :: 0 <= k < j && k != i ==> !Free(placed, StartCandidates[k])
  {
    var values := FreeCandidates(placed);
    if |values| < 2 then None
    else
      assert values[0] in values && values[1] in values;
      EarliestTwo(StartCandidates, placed);
      Some((values[0], values[1]))
  }

  /** The first two free entries of a candidate list come before every other
      free entry. */
  lemma EarliestTwo(cands: seq<Coord>, placed: seq<WorkerPair>)
    requires |KeepFree(cands, placed)| >= 2
    ensures exists i, j ::
      && 0 <= i < j < |cands|
      && cands[i] == KeepFree(cands, placed)[0] && cands[j] == KeepFree(cands, placed)[1]
      && forall k :: 0 <= k < j && k != i ==> !Free(placed, cands[k])
  {
    var values := KeepFree(cands, placed);
    var i := FirstFree(cands, placed);
    KeepFreeSkips(cands, placed);
    assert i < |cands|;
    var tail := cands[i + 1..];
    assert values == [cands[i]] + KeepFree(tail, placed);
    var i2 := FirstFree(tail, placed);
    KeepFreeSkips(tail, placed);
    assert i2 < |tail|;
    assert KeepFree(tail, placed)[0] == tail[i2];
    var j := i + 1 + i2;
    assert cands[j] == values[1];
    UsedBeforeSecond(cands, placed, i, tail, i2);
  }

  /** Joins the used cells before the first free candidate (at i) with those
      between it and the next free one (i2 places further on). */
  lemma UsedBeforeSecond(cands: seq<Coord>, placed: seq<WorkerPair>, i: nat, tail: seq<Coord>, i2: nat)
    requires i + 1 + i2 < |cands| && tail == cands[i + 1..]
    requires forall k :: 0 <= k < i ==> !Free(placed, cands[k])
    requires forall k :: 0 <= k < i2 ==> !Free(placed, tail[k])
    ensures forall k :: 0 <= k < i + 1 + i2 && k != i ==> !Free(placed, cands[k])
  {
    forall k | 0 <= k < i + 1 + i2 && k != i ensures !Free(placed, cands[k]) {
      if k > i {
        assert cands[k] == tail[k - i - 1];
      }
    }
  }

  /** A duplicate-free sequence holds every value at most once. */
  lemma {:induction false} DistinctMultiplicity<T>(s: seq<T>, x: T)
    requires Distinct(s)
    ensures multiset(s)[x] <= 1
  {
    if s != [] {
      assert s == [s[0]] + s[1..];
      DistinctMultiplicity(s[1..], x);
      if s[0] == x {
        assert x !in s[1..];
      }
    }
  }

  /** The first two entries of an arbitrary shuffle of the free candidates, or
      None (the library's index panic) when fewer than two are free. */
  function ShuffledTwoFree(placed: seq<WorkerPair>, shuffled: seq<Coord>): (r: Option<WorkerPair>)
    requires multiset(shuffled) == multiset(FreeCandidates(placed))
    ensures r.None? <==> |FreeCandidates(placed)| < 2
    ensures r.Some? ==> r.value.0 != r.value.1
    ensures r.Some? ==> r.value.0 in StartCandidates && r.value.1 in StartCandidates
    ensures r.Some? ==> OnBoard(r.value.0) && OnBoard(r.value.1)
    ensures r.Some? ==> Free(placed, r.value.0) && Free(placed, r.value.1)
  {
    assert |shuffled| == |multiset(shuffled)| == |FreeCandidates(placed)|;
    if |shuffled| < 2 then None
    else
      assert shuffled[0] in multiset(shuffled) && shuffled[1] in multiset(shuffled);
      if shuffled[0] == shuffled[1] then
        assert shuffled == [shuffled[0], shuffled[0]] + shuffled[2..];
        assert multiset(shuffled)[shuffled[0]] >= 2;
        DistinctMultiplicity(FreeCandidates(placed), shuffled[0]);
        assert false;
        None
      else
        Some((shuffled[0], shuffled[1]))
  }
}
