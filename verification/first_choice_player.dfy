/** The first-choice player: always the first listed action and the first two
    free start candidates. */
module FirstChoicePlayer {
  import opened Santorini
  import opened Placement

  /** `get_action`: the first action the engine lists, or the placeholder
      `(One, (0, 0), (0, 0))` when it lists none. */
  function GetAction(possible: seq<Action>): (r: Action)
    ensures possible != [] ==> r in possible && r == possible[0]
    ensures possible == [] ==> r == NoAction
  {
    if possible != [] then possible[0] else NoAction
  }

  /** `get_starting_position`: the first two candidates no committed placement
      uses; None stands for the index panic when fewer than two are free. */
  function StartingPosition(placed: seq<WorkerPair>): (r: Option<WorkerPair>)
    ensures r.None? <==> |FreeCandidates(placed)| < 2
    ensures r.Some? ==> r.value.0 != r.value.1 && OnBoard(r.value.0) && OnBoard(r.value.1)
    ensures r.Some? ==> Free(placed, r.value.0) && Free(placed, r.value.1)
    ensures r.Some? ==> exists i, j ::
      && 0 <= i < j < |StartCandidates|
      && StartCandidates[i] == r.value.0 && StartCandidates[j] == r.value.1
      && forall k :: 0 <= k < j && k != i ==> !Free(placed, StartCandidates[k])
  {
    FirstTwoFree(placed)
  }

  /** With nothing placed, every candidate is free. */
  lemma {:induction false} KeepFreeNothingPlaced(cands: seq<Coord>)
    ensures KeepFree(cands, []) == cands
  {
    if cands != [] {
      KeepFreeNothingPlaced(cands[1..]);
    }
  }

  /** With nothing placed yet the player starts on (0, 0) and (0, 1). */
  lemma StartOnEmptyBoard()
    ensures StartingPosition([]) == Some(((0, 0), (0, 1)))
  {
    KeepFreeNothingPlaced(StartCandidates);
  }

  /** One step of KeepFree, stated without unfolding the candidate list. */
  lemma KeepFreeStep(cands: seq<Coord>, placed: seq<WorkerPair>, rest: seq<Coord>)
    requires cands != [] && KeepFree(cands[1..], placed) == rest
    ensures KeepFree(cands, placed) == if Free(placed, cands[0]) then [cands[0]] + rest else rest
  {
  }

  /** The free list for a concrete placement, built from the last candidate back. */
  lemma FreeCandidatesOf(placed: seq<WorkerPair>, free: seq<bool>)
    requires |free| == 6
    requires forall k :: 0 <= k < 6 ==> (free[k] <==> Free(placed, StartCandidates[k]))
    ensures FreeCandidates(placed) == Kept(StartCandidates, free)
  {
    var c := StartCandidates;
    var k := 6;
    assert KeepFree(c[6..], placed) == Kept(c[6..], free[6..]);
    while k > 0
      invariant 0 <= k <= 6
      invariant KeepFree(c[k..], placed) == Kept(c[k..], free[k..])
    {
      k := k - 1;
      assert c[k..][1..] == c[k + 1..] && free[k..][1..] == free[k + 1..];
      KeepFreeStep(c[k..], placed, Kept(c[k + 1..], free[k + 1..]));
    }
    assert c[0..] == c && free[0..] == free;
  }

  /** The entries of cands whose flag is set, in order. */
  function Kept(cands: seq<Coord>, flags: seq<bool>): seq<Coord>
    requires |cands| == |flags|
  {
    if cands == [] then []
    else if flags[0] then [cands[0]] + Kept(cands[1..], flags[1..])
    else Kept(cands[1..], flags[1..])
  }

  /** Three first-choice players placed one after another take (0, 0)/(0, 1),
      (0, 2)/(0, 3) and (0, 4)/(1, 0); a fourth finds no free cell and fails. */
  lemma ThreePlayersPlaceInTurn()
    ensures StartingPosition([]) == Some(((0, 0), (0, 1)))
    ensures StartingPosition([((0, 0), (0, 1))]) == Some(((0, 2), (0, 3)))
    ensures StartingPosition([((0, 0), (0, 1)), ((0, 2), (0, 3))]) == Some(((0, 4), (1, 0)))
    ensures StartingPosition([((0, 0), (0, 1)), ((0, 2), (0, 3)), ((0, 4), (1, 0))]).None?
  {
    StartOnEmptyBoard();
    SecondPlayerStart();
    ThirdPlayerStart();
    FourthPlayerStart();
  }

  /** Whether candidate k is free, decided pair by pair: it is free exactly when
      every pair's two cells differ from it. */
  lemma CandidateFree(placed: seq<WorkerPair>, k: nat)
    requires |placed| <= 3 && k < 6
    ensures Free(placed, StartCandidates[k]) <==>
      && (|placed| > 0 ==> placed[0].0 != StartCandidates[k] && placed[0].1 != StartCandidates[k])
      && (|placed| > 1 ==> placed[1].0 != StartCandidates[k] && placed[1].1 != StartCandidates[k])
      && (|placed| > 2 ==> placed[2].0 != StartCandidates[k] && placed[2].1 != StartCandidates[k])
  {
  }

  /** The free list of a concrete placement of at most three pairs. */
  lemma FreeListOf(placed: seq<WorkerPair>, free: seq<bool>, expected: seq<Coord>)
    requires |placed| <= 3 && |free| == 6
    requires forall k :: 0 <= k < 6 ==> (free[k] <==> Free(placed, StartCandidates[k]))
    requires Kept(StartCandidates, free) == expected
    ensures FreeCandidates(placed) == expected
  {
    FreeCandidatesOf(placed, free);
  }

  lemma SecondPlayerStart()
    ensures StartingPosition([((0, 0), (0, 1))]) == Some(((0, 2), (0, 3)))
  {
    var placed: seq<WorkerPair> := [((0, 0), (0, 1))];
    var free := [false, false, true, true, true, true];
    forall k | 0 <= k < 6 ensures free[k] <==> Free(placed, StartCandidates[k]) {
      CandidateFree(placed, k);
    }
    assert Kept(StartCandidates, free) == [(0, 2), (0, 3), (0, 4), (1, 0)];
    FreeListOf(placed, free, [(0, 2), (0, 3), (0, 4), (1, 0)]);
  }

  lemma ThirdPlayerStart()
    ensures StartingPosition([((0, 0), (0, 1)), ((0, 2), (0, 3))]) == Some(((0, 4), (1, 0)))
  {
    var placed: seq<WorkerPair> := [((0, 0), (0, 1)), ((0, 2), (0, 3))];
    var free := [false, false, false, false, true, true];
    forall k | 0 <= k < 6 ensures free[k] <==> Free(placed, StartCandidates[k]) {
      CandidateFree(placed, k);
    }
    assert Kept(StartCandidates, free) == [(0, 4), (1, 0)];
    FreeListOf(placed, free, [(0, 4), (1, 0)]);
  }

  lemma FourthPlayerStart()
    ensures StartingPosition([((0, 0), (0, 1)), ((0, 2), (0, 3)), ((0, 4), (1, 0))]).None?
  {
    var placed: seq<WorkerPair> := [((0, 0), (0, 1)), ((0, 2), (0, 3)), ((0, 4), (1, 0))];
    var free := [false, false, false, false, false, false];
    forall k | 0 <= k < 6 ensures free[k] <==> Free(placed, StartCandidates[k]) {
      CandidateFree(placed, k);
    }
    assert Kept(StartCandidates, free) == [];
    FreeListOf(placed, free, []);
  }
}
