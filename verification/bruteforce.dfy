/** The brute-force player's bookkeeping: the next-player rule of its search,
    the keep-the-best-ties loop of `get_action`, and its start placement.
    The search value of an action (`evaluate_action`) is supplied as a
    score function. */
module BruteForcePlayer {
  import opened Santorini
  import opened Placement

  /* ---------- next player ---------- */

  /** The search's next player: the following slot if it is Playing, otherwise
      the one after it, whose status is not examined. */
  function NextPlayer(p: nat, statuses: Statuses): (q: nat)
    requires p < 3
    ensures q < 3 && q != p
    ensures q == (p + 1) % 3 || q == (p + 2) % 3
    ensures q == (p + 1) % 3 <==> statuses[(p + 1) % 3] == Playing
  {
    var next := (p + 1) % 3;
    if statuses[next] == Playing then next else (p + 2) % 3
  }

  /** When some other slot is Playing, the rule yields the first Playing slot
      after p in turn order. */
  lemma NextPlayerIsNextPlaying(p: nat, statuses: Statuses)
    requires p < 3
    requires statuses[(p + 1) % 3] == Playing || statuses[(p + 2) % 3] == Playing
    ensures statuses[NextPlayer(p, statuses)] == Playing
    ensures NextPlayer(p, statuses) == (p + 2) % 3 ==> statuses[(p + 1) % 3] == Dead
  {
  }

  /** With both other slots Dead the rule still hands the turn to a Dead slot. */
  lemma NextPlayerCanBeDead()
    ensures NextPlayer(0, [Playing, Dead, Dead]) == 2
    ensures [Playing, Dead, Dead][NextPlayer(0, [Playing, Dead, Dead])] == Dead
  {
  }

  /* ---------- get_action ---------- */

  /** `f32::MIN`, the starting best score; every score is a finite f32, so at least this. */
  const F32Min: int := -340282346638528859811704183484516925440

  /** The best score among s, or F32Min for no actions. */
  function BestScore(s: seq<Action>, score: Action -> int): int {
    if s == [] then F32Min else Max(BestScore(s[..|s| - 1], score), score(s[|s| - 1]))
  }

  /** The actions of s scoring exactly m, in order. */
  function Ties(s: seq<Action>, score: Action -> int, m: int): seq<Action> {
    if s == [] then []
    else Ties(s[..|s| - 1], score, m) + (if score(s[|s| - 1]) == m then [s[|s| - 1]] else [])
  }

  /** Ties holds an action exactly when s does and it scores m. */
  lemma {:induction false} TiesMembers(s: seq<Action>, score: Action -> int, m: int, a: Action)
    ensures a in Ties(s, score, m) <==> a in s && score(a) == m
  {
    if s != [] {
      var init := s[..|s| - 1];
      TiesMembers(init, score, m, a);
      assert s == init + [s[|s| - 1]];
    }
  }

  /** Every action scores at most BestScore, and a nonempty list attains it. */
  lemma {:induction false} BestScoreMeaning(s: seq<Action>, score: Action -> int)
    requires forall k :: 0 <= k < |s| ==> score(s[k]) >= F32Min
    ensures forall k :: 0 <= k < |s| ==> score(s[k]) <= BestScore(s, score)
    ensures s != [] ==> exists k :: 0 <= k < |s| && score(s[k]) == BestScore(s, score)
  {
    if s != [] {
      var init := s[..|s| - 1];
      BestScoreMeaning(init, score);
      forall k | 0 <= k < |s| ensures score(s[k]) <= BestScore(s, score) {
        if k < |init| {
          assert s[k] == init[k];
        }
      }
      if init != [] && BestScore(init, score) >= score(s[|s| - 1]) {
        var k :| 0 <= k < |init| && score(init[k]) == BestScore(init, score);
        assert s[k] == init[k];
      } else {
        assert score(s[|s| - 1]) == BestScore(s, score);
      }
    }
  }

  /** `get_action`: scans the listed actions keeping those that tie the best
      score so far, then returns the one a random choice picks (here the entry
      at `pick` modulo the count), or the placeholder when none was kept. */
  method GetAction(possible: seq<Action>, score: Action -> int, pick: nat) returns (kept: seq<Action>, r: Action)
    requires forall k :: 0 <= k < |possible| ==> score(possible[k]) >= F32Min
    ensures kept == Ties(possible, score, BestScore(possible, score))
    ensures forall a :: a in kept <==> a in possible && score(a) == BestScore(possible, score)
    ensures possible == [] ==> r == NoAction
    ensures possible != [] ==> r in possible && forall k :: 0 <= k < |possible| ==> score(possible[k]) <= score(r)
  {
    var best := F32Min;
    kept := [];
    var i := 0;
    while i < |possible|
      invariant 0 <= i <= |possible|
      invariant best == BestScore(possible[..i], score)
      invariant kept == Ties(possible[..i], score, best)
    {
      var a := possible[i];
      var s := score(a);
      assert possible[..i + 1] == possible[..i] + [a];
      if s > best {
        NoTiesAbove(possible[..i], score, s);
        kept := [a];
        best := s;
      } else if s == best {
        kept := kept + [a];
      }
      i := i + 1;
    }
    assert possible[..|possible|] == possible;
    forall a ensures a in kept <==> a in possible && score(a) == best {
      TiesMembers(possible, score, best, a);
    }
    BestScoreMeaning(possible, score);
    if possible == [] {
      r := NoAction;
    } else {
      var k :| 0 <= k < |possible| && score(possible[k]) == best;
      assert possible[k] in kept;
      r := kept[pick % |kept|];
      assert r in kept;
    }
  }

  /** Nothing in a list whose best score is below m scores m. */
  lemma NoTiesAbove(s: seq<Action>, score: Action -> int, m: int)
    requires BestScore(s, score) < m
    ensures Ties(s, score, m) == []
  {
    forall a | a in s ensures score(a) != m {
      var k :| 0 <= k < |s| && s[k] == a;
      BestScoreBound(s, score, k);
    }
    if Ties(s, score, m) != [] {
      TiesMembers(s, score, m, Ties(s, score, m)[0]);
    }
  }

  /** No entry scores above BestScore. */
  lemma {:induction false} BestScoreBound(s: seq<Action>, score: Action -> int, k: nat)
    requires k < |s|
    ensures score(s[k]) <= BestScore(s, score)
  {
    var init := s[..|s| - 1];
    if k < |s| - 1 {
      BestScoreBound(init, score, k);
    }
  }

  /* ---------- get_starting_position ---------- */

  /** `get_starting_position`: as the random-choice player, the first two
      entries of a shuffle of the free candidates; None for the index panic. */
  function StartingPosition(placed: seq<WorkerPair>, shuffled: seq<Coord>): (r: Option<WorkerPair>)
    requires multiset(shuffled) == multiset(FreeCandidates(placed))
    ensures r.None? <==> |FreeCandidates(placed)| < 2
    ensures r.Some? ==> r.value.0 != r.value.1 && OnBoard(r.value.0) && OnBoard(r.value.1)
    ensures r.Some? ==> r.value.0 in StartCandidates && r.value.1 in StartCandidates
    ensures r.Some? ==> Free(placed, r.value.0) && Free(placed, r.value.1)
  {
    ShuffledTwoFree(placed, shuffled)
  }
}
