/** The random-choice player: a uniformly shuffled legal action and two
    shuffled free start candidates. The shuffle is modelled as an arbitrary
    permutation supplied by the caller. */
module RandomChoicePlayer {
  import opened Santorini
  import opened Placement

  /** `get_action`: the head of a shuffle of the listed actions, or the
      placeholder when none is listed. */
  function GetAction(possible: seq<Action>, shuffled: seq<Action>): (r: Action)
    requires multiset(shuffled) == multiset(possible)
    ensures possible == [] ==> r == NoAction
    ensures possible != [] ==> r in possible
  {
    assert |shuffled| == |multiset(shuffled)| == |possible|;
    if shuffled != [] then
      assert shuffled[0] in multiset(possible);
      shuffled[0]
    else NoAction
  }

  /** Every listed action is returned by some shuffle. */
  lemma AnyListedActionPossible(possible: seq<Action>, k: nat)
    requires k < |possible|
    ensures exists shuffled ::
      multiset(shuffled) == multiset(possible) && GetAction(possible, shuffled) == possible[k]
  {
    var shuffled := MoveToFront(possible, k);
    assert GetAction(possible, shuffled) == possible[k];
  }

  /** `get_starting_position`: the first two entries of a shuffle of the free
      candidates; None stands for the index panic when fewer than two are free. */
  function StartingPosition(placed: seq<WorkerPair>, shuffled: seq<Coord>): (r: Option<WorkerPair>)
    requires multiset(shuffled) == multiset(FreeCandidates(placed))
    ensures r.None? <==> |FreeCandidates(placed)| < 2
    ensures r.Some? ==> r.value.0 != r.value.1 && OnBoard(r.value.0) && OnBoard(r.value.1)
    ensures r.Some? ==> r.value.0 in StartCandidates && r.value.1 in StartCandidates
    ensures r.Some? ==> Free(placed, r.value.0) && Free(placed, r.value.1)
  {
    ShuffledTwoFree(placed, shuffled)
  }

  /** The identity shuffle makes the random player place like the first-choice one. */
  lemma IdentityShuffleIsFirstChoice(placed: seq<WorkerPair>)
    ensures StartingPosition(placed, FreeCandidates(placed)) == FirstTwoFree(placed)
  {
  }

  /** Every ordered pair of distinct free candidates is chosen by some shuffle. */
  lemma AnyFreePairPossible(placed: seq<WorkerPair>, i: nat, j: nat)
    requires i < |FreeCandidates(placed)| && j < |FreeCandidates(placed)| && i != j
    ensures exists shuffled ::
      && multiset(shuffled) == multiset(FreeCandidates(placed))
      && StartingPosition(placed, shuffled) == Some((FreeCandidates(placed)[i], FreeCandidates(placed)[j]))
  {
    var free := FreeCandidates(placed);
    var shuffled := PairToFront(free, i, j);
    assert StartingPosition(placed, shuffled) == Some((free[i], free[j]));
  }

  /** A permutation of s that starts with s[i] and then s[j]. */
  function PairToFront<T>(s: seq<T>, i: nat, j: nat): (r: seq<T>)
    requires i < |s| && j < |s| && i != j
    ensures |r| == |s| && r[0] == s[i] && r[1] == s[j]
    ensures multiset(r) == multiset(s)
  {
    var t := MoveToFront(s, i);
    var j' := if j < i then j + 1 else j;
    assert t[j'] == s[j];
    var u := MoveToFront(t[1..], j' - 1);
    assert t == [t[0]] + t[1..];
    [t[0]] + u
  }

  /** s with its k-th entry moved to the front. */
  function MoveToFront<T>(s: seq<T>, k: nat): (r: seq<T>)
    requires k < |s|
    ensures |r| == |s| && r[0] == s[k]
    ensures forall m :: 0 <= m < k ==> r[m + 1] == s[m]
    ensures forall m :: k < m < |s| ==> r[m] == s[m]
    ensures multiset(r) == multiset(s)
  {
    assert s == s[..k] + [s[k]] + s[k + 1..];
    [s[k]] + s[..k] + s[k + 1..]
  }
}
