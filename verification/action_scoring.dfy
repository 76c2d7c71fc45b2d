/** The four action scorers of the genetic player. Each takes the scorer
    signature of the library (snapshot, acting slot, action, and the three
    proximity flags the engine computes) and returns a small whole number; the
    library returns these as f32, but every value it produces is an exact
    integer. */
module ActionScoring {
  import opened Santorini

  /* ---------- PrioritizeClimbing ---------- */

  /** The height gained (or, when negative, lost) by the move: the moved
      worker's destination height minus the height it stands on now. */
  function ClimbingScore(game: Game, playerId: nat, action: Action,
                         isNearPlayer: bool, willBeNearPlayer: bool, willBuildNearPlayer: bool): (r: int)
    requires playerId < 3
    requires OnBoard(action.movement) && OnBoard(WorkerCell(game.locations[playerId], action.worker))
    ensures -4 <= r <= 4
    ensures r > 0 <==> Height(Cell(game.board, action.movement))
                       > Height(Cell(game.board, WorkerCell(game.locations[playerId], action.worker)))
    ensures r == 4 ==> Cell(game.board, action.movement) == Capped
  {
    var from := WorkerCell(game.locations[playerId], action.worker);
    Height(Cell(game.board, action.movement)) - Height(Cell(game.board, from))
  }

  /** The index the climbing tests pick: the first score strictly larger than
      everything before it and at least as large as everything after it. */
  function FirstMaxIndex(scores: seq<int>): (k: nat)
    requires |scores| > 0
    ensures k < |scores|
    ensures forall j :: 0 <= j < |scores| ==> scores[j] <= scores[k]
    ensures forall j :: 0 <= j < k ==> scores[j] < scores[k]
  {
    if |scores| == 1 then 0
    else
      var k := FirstMaxIndex(scores[..|scores| - 1]);
      if scores[|scores| - 1] > scores[k] then |scores| - 1 else k
  }

  function Negated(scores: seq<int>): (r: seq<int>)
    ensures |r| == |scores| && forall j :: 0 <= j < |r| ==> r[j] == -scores[j]
  {
    seq(|scores|, j requires 0 <= j < |scores| => -scores[j])
  }

  /** Climbing scores of a list of actions for slot 0, all flags false, as the tests compute them. */
  function ClimbingScores(game: Game, actions: seq<Action>): (r: seq<int>)
    requires forall a :: a in actions ==> OnBoard(a.movement)
    requires OnBoard(game.locations[0].0) && OnBoard(game.locations[0].1)
    ensures |r| == |actions|
    ensures forall j :: 0 <= j < |r| ==> r[j] == ClimbingScore(game, 0, actions[j], false, false, false)
  {
    seq(|actions|, j requires 0 <= j < |actions| => ClimbingScore(game, 0, actions[j], false, false, false))
  }

  const ClimbTestGame: Game :=
    Game([[Empty, Level1, Empty, Empty, Empty], [Empty, Empty, Empty, Empty, Empty],
          [Empty, Empty, Empty, Empty, Empty], [Empty, Empty, Empty, Empty, Empty],
          [Empty, Empty, Empty, Empty, Empty]],
         [((0, 0), (3, 3)), ((17, 17), (17, 17)), ((17, 17), (17, 17))],
         [Playing, Dead, Dead])

  const DropTestGame: Game :=
    Game([[Level1, Empty, Level1, Level1, Level1], [Level1, Level1, Level1, Level1, Level1],
          [Level1, Level1, Level1, Level1, Level1], [Level1, Level1, Level1, Level1, Level1],
          [Level1, Level1, Level1, Level1, Level1]],
         [((0, 0), (3, 3)), ((17, 17), (17, 17)), ((17, 17), (17, 17))],
         [Playing, Dead, Dead])

  /** The test "climb highest": whatever on-board actions the engine lists,
      provided one of them moves onto (0, 1), the first highest-scoring action
      moves onto (0, 1), the only raised cell. */
  lemma ClimbHighestTest(actions: seq<Action>)
    requires forall a :: a in actions ==> OnBoard(a.movement)
    requires exists a :: a in actions && a.movement == (0, 1)
    ensures |actions| > 0
    ensures actions[FirstMaxIndex(ClimbingScores(ClimbTestGame, actions))].movement == (0, 1)
  {
    var scores := ClimbingScores(ClimbTestGame, actions);
    var a :| a in actions && a.movement == (0, 1);
    var i :| 0 <= i < |actions| && actions[i] == a;
    ClimbScore(a);
    assert scores[i] == 1;
    forall j | 0 <= j < |actions| ensures scores[j] <= 1 {
      ClimbScore(actions[j]);
    }
    var k := FirstMaxIndex(scores);
    assert scores[k] == 1;
    ClimbScore(actions[k]);
  }

  /** On the "climb highest" board an action scores 1 exactly when it moves onto
      (0, 1), and never more. */
  lemma ClimbScore(a: Action)
    requires OnBoard(a.movement)
    ensures ClimbingScore(ClimbTestGame, 0, a, false, false, false) <= 1
    ensures ClimbingScore(ClimbTestGame, 0, a, false, false, false) == 1 <==> a.movement == (0, 1)
  {
    assert Cell(ClimbTestGame.board, WorkerCell(ClimbTestGame.locations[0], a.worker)) == Empty;
    ClimbBoardRaisedCell(a.movement);
  }

  /** (0, 1) is the only raised cell of the "climb highest" board. */
  lemma ClimbBoardRaisedCell(c: Coord)
    requires OnBoard(c)
    ensures Cell(ClimbTestGame.board, c) == (if c == (0, 1) then Level1 else Empty)
  {
  }

  /** The test "drop lowest": on a board of Level1 towers with (0, 1) empty, the
      first lowest-scoring action moves onto (0, 1). */
  lemma DropLowestTest(actions: seq<Action>)
    requires forall a :: a in actions ==> OnBoard(a.movement)
    requires exists a :: a in actions && a.movement == (0, 1)
    ensures |actions| > 0
    ensures actions[FirstMaxIndex(Negated(ClimbingScores(DropTestGame, actions)))].movement == (0, 1)
  {
    var scores := Negated(ClimbingScores(DropTestGame, actions));
    var a :| a in actions && a.movement == (0, 1);
    var i :| 0 <= i < |actions| && actions[i] == a;
    DropScore(a);
    assert scores[i] == 1;
    forall j | 0 <= j < |actions| ensures scores[j] <= 1 {
      DropScore(actions[j]);
    }
    var k := FirstMaxIndex(scores);
    assert scores[k] == 1;
    DropScore(actions[k]);
  }

  /** On the "drop lowest" board an action's negated score is 1 exactly when it
      moves onto (0, 1), and never more. */
  lemma DropScore(a: Action)
    requires OnBoard(a.movement)
    ensures -ClimbingScore(DropTestGame, 0, a, false, false, false) <= 1
    ensures -ClimbingScore(DropTestGame, 0, a, false, false, false) == 1 <==> a.movement == (0, 1)
  {
    assert Cell(DropTestGame.board, WorkerCell(DropTestGame.locations[0], a.worker)) == Level1;
    DropBoardCell(a.movement);
  }

  /** (0, 1) is the only empty cell of the "drop lowest" board. */
  lemma DropBoardCell(c: Coord)
    requires OnBoard(c)
    ensures Cell(DropTestGame.board, c) == (if c == (0, 1) then Empty else Level1)
  {
  }

  /* ---------- PrioritizeCapping ---------- */

  /** Rewards capping a Level3 tower next to another player, and discourages
      both capping away from players and raising a lower tower next to one. */
  function CappingScore(game: Game, playerId: nat, action: Action,
                        isNearPlayer: bool, willBeNearPlayer: bool, willBuildNearPlayer: bool): (r: int)
    requires OnBoard(action.build)
    ensures -1 <= r <= 1
    ensures r == 1 <==> Cell(game.board, action.build) == Level3 && willBuildNearPlayer
    ensures r == 0 <==> Cell(game.board, action.build) != Level3 && !willBuildNearPlayer
  {
    if Cell(game.board, action.build) == Level3 then
      if willBuildNearPlayer then 1 else -1
    else if willBuildNearPlayer then -1
    else 0
  }

  /** Capping looks only at the build cell's state and the build-near flag. */
  lemma CappingDependsOnBuildCellOnly(g1: Game, g2: Game, p1: nat, p2: nat, a1: Action, a2: Action,
                                      n1: bool, n2: bool, m1: bool, m2: bool, near: bool)
    requires OnBoard(a1.build) && OnBoard(a2.build)
    requires Cell(g1.board, a1.build) == Cell(g2.board, a2.build)
    ensures CappingScore(g1, p1, a1, n1, m1, near) == CappingScore(g2, p2, a2, n2, m2, near)
  {
  }

  /* ---------- PrioritizeNextToPlayer ---------- */

  /** Rewards moving next to another player, is neutral about staying next to
      one, and penalises ending the move away from every other player. */
  function NextToPlayerScore(game: Game, playerId: nat, action: Action,
                             isNearPlayer: bool, willBeNearPlayer: bool, willBuildNearPlayer: bool): (r: int)
    ensures r == 1 <==> !isNearPlayer && willBeNearPlayer
    ensures r == 0 <==> isNearPlayer && willBeNearPlayer
    ensures r == -1 <==> !willBeNearPlayer
  {
    if isNearPlayer then
      if willBeNearPlayer then 0 else -1
    else if willBeNearPlayer then 1
    else -1
  }

  /* ---------- PrioritizeBlocking ---------- */

  /** `v.wrapping_sub(1)` on a u8: 0 wraps round to 255. */
  function WrappingDec(v: Byte): (r: Byte)
    ensures v == 0 ==> r == 255
    ensures v > 0 ==> r + 1 == v
  {
    (v - 1) % 256
  }

  /** The eight cells around the build cell b, in the order and with the u8
      arithmetic PrioritizeBlocking uses. */
  function BlockingCandidates(b: Coord): (cs: seq<Coord>)
    requires OnBoard(b)
    ensures |cs| == 8
    ensures forall k :: 0 <= k < 8 ==> cs[k] != b
  {
    var (r, c) := b;
    [(WrappingDec(r), WrappingDec(c)), (r, WrappingDec(c)), (r + 1, WrappingDec(c)),
     (WrappingDec(r), c), (WrappingDec(r), c + 1), (r, c + 1), (r + 1, c), (r + 1, c + 1)]
  }

  /** A candidate passes the scorer's filter when it is on the board (the u8
      `<= 4` test) and is not one of the acting player's two post-move cells. */
  predicate Inspected(s: Coord, w1: Coord, w2: Coord) {
    s.0 <= 4 && s.1 <= 4 && s != w1 && s != w2
  }

  /** The cells a candidate list of the scorer can reach: a coordinate of 0
      wraps to 255 and fails the bounds test, so the on-board candidates are
      exactly the king-neighbours of b. */
  lemma BlockingCandidatesExact(b: Coord, s: Coord)
    requires OnBoard(b)
    ensures s in BlockingCandidates(b) && OnBoard(s) <==> OnBoard(s) && Chebyshev(s, b) == 1
  {
    var cs := BlockingCandidates(b);
    if OnBoard(s) && Chebyshev(s, b) == 1 {
      var (r, c) := b;
      var dr := s.0 - r;
      var dc := s.1 - c;
      assert -1 <= dr <= 1 && -1 <= dc <= 1 && (dr, dc) != (0, 0);
      if dr == -1 && dc == -1 { assert s == cs[0]; }
      else if dr == 0 && dc == -1 { assert s == cs[1]; }
      else if dr == 1 && dc == -1 { assert s == cs[2]; }
      else if dr == -1 && dc == 0 { assert s == cs[3]; }
      else if dr == -1 && dc == 1 { assert s == cs[4]; }
      else if dr == 0 && dc == 1 { assert s == cs[5]; }
      else if dr == 1 && dc == 0 { assert s == cs[6]; }
      else { assert s == cs[7]; }
    }
  }

  /** The scorer's running maximum over a candidate list: it starts at 0 and
      takes the height of every candidate that passes the filter. */
  function NearMax(board: Board, cands: seq<Coord>, w1: Coord, w2: Coord): (m: nat)
    ensures m <= 4
    ensures forall i :: 0 <= i < |cands| && Inspected(cands[i], w1, w2) ==> Height(Cell(board, cands[i])) <= m
    ensures m == 0 || exists i :: 0 <= i < |cands| && Inspected(cands[i], w1, w2) && Height(Cell(board, cands[i])) == m
  {
    if cands == [] then 0
    else
      var init := cands[..|cands| - 1];
      var last := cands[|cands| - 1];
      var m := NearMax(board, init, w1, w2);
      assert forall i :: 0 <= i < |init| ==> init[i] == cands[i];
      if Inspected(last, w1, w2) then Max(m, Height(Cell(board, last))) else m
  }

  /** m is the highest tower on the on-board king-neighbours of b other than the
      cells w1 and w2, or 0 when there is none: the reference the scorer's
      running maximum is checked against. */
  ghost predicate IsNeighbourMax(board: Board, b: Coord, w1: Coord, w2: Coord, m: nat) {
    && (forall c: Coord :: OnBoard(c) && Chebyshev(c, b) == 1 && c != w1 && c != w2 ==> Height(Cell(board, c)) <= m)
    && (m == 0 || exists c: Coord :: OnBoard(c) && Chebyshev(c, b) == 1 && c != w1 && c != w2 && Height(Cell(board, c)) == m)
  }

  lemma NeighbourMaxUnique(board: Board, b: Coord, w1: Coord, w2: Coord, m: nat, m': nat)
    requires IsNeighbourMax(board, b, w1, w2, m) && IsNeighbourMax(board, b, w1, w2, m')
    ensures m == m'
  {
  }

  /** The running maximum over the scorer's eight candidates is the neighbour
      maximum: no off-board cell is indexed, every in-bounds king-neighbour
      other than the player's own post-move cells is counted, opponents' cells
      included. */
  lemma NearMaxIsNeighbourMax(board: Board, b: Coord, w1: Coord, w2: Coord)
    requires OnBoard(b)
    ensures IsNeighbourMax(board, b, w1, w2, NearMax(board, BlockingCandidates(b), w1, w2))
  {
    var cs := BlockingCandidates(b);
    var m := NearMax(board, cs, w1, w2);
    forall c: Coord | OnBoard(c) && Chebyshev(c, b) == 1 && c != w1 && c != w2
      ensures Height(Cell(board, c)) <= m
    {
      BlockingCandidatesExact(b, c);
      var i :| 0 <= i < |cs| && cs[i] == c;
      assert Inspected(cs[i], w1, w2);
    }
    if m != 0 {
      var i :| 0 <= i < |cs| && Inspected(cs[i], w1, w2) && Height(Cell(board, cs[i])) == m;
      BlockingCandidatesExact(b, cs[i]);
      assert OnBoard(cs[i]) && Chebyshev(cs[i], b) == 1;
    }
  }

  /** The acting player's two cells after the move: the moved worker stands on
      the move cell, the other worker where it was. */
  function PostMoveCells(pair: WorkerPair, action: Action): (cells: WorkerPair)
    ensures WorkerCell(cells, action.worker) == action.movement
    ensures action.worker == One ==> cells.1 == pair.1
    ensures action.worker == Two ==> cells.0 == pair.0
  {
    if action.worker == One then (action.movement, pair.1) else (pair.0, action.movement)
  }

  /** The score for a given height difference between the build cell and its
      highest neighbour. */
  function BlockingTable(diff: int): (r: int)
    ensures r in {-3, -2, -1, 2}
    ensures r == 2 <==> diff == 1
    ensures r == -3 <==> diff == 0
    ensures r == -2 <==> diff == 3 || diff == 2 || diff == -1
    ensures r == -1 <==> diff > 3 || diff < -1
  {
    match diff
    case 3 => -2
    case 2 => -2
    case 1 => 2
    case 0 => -3
    case -1 => -2
    case _ => -1
  }

  /** Scores a build next to another player by how it compares with the highest
      surrounding tower; a build away from every player scores 0. */
  function BlockingScore(game: Game, playerId: nat, action: Action,
                         isNearPlayer: bool, willBeNearPlayer: bool, willBuildNearPlayer: bool): (r: int)
    requires willBuildNearPlayer ==> playerId < 3 && OnBoard(action.build)
    ensures r == 0 <==> !willBuildNearPlayer
    ensures r in {-3, -2, -1, 0, 2}
  {
    if willBuildNearPlayer then
      var (w1, w2) := PostMoveCells(game.locations[playerId], action);
      var maxNear := NearMax(game.board, BlockingCandidates(action.build), w1, w2);
      BlockingTable(Height(Cell(game.board, action.build)) - maxNear)
    else
      0
  }

  /** Blocking scored against the reference neighbour maximum: with m the
      highest tower on the king-neighbours of the build cell other than the
      player's own post-move cells (0 if none), the score is the table entry
      for height(build) - m; in particular it is +2 exactly when the build cell
      is one level above every such neighbour and reaches that level from one. */
  lemma BlockingScoreMeaning(game: Game, playerId: nat, action: Action,
                             isNearPlayer: bool, willBeNearPlayer: bool, m: nat)
    requires playerId < 3 && OnBoard(action.build)
    requires var cells := PostMoveCells(game.locations[playerId], action);
      IsNeighbourMax(game.board, action.build, cells.0, cells.1, m)
    ensures var r := BlockingScore(game, playerId, action, isNearPlayer, willBeNearPlayer, true);
      && r == BlockingTable(Height(Cell(game.board, action.build)) - m)
      && (r == 2 <==> Height(Cell(game.board, action.build)) == m + 1)
  {
    var cells := PostMoveCells(game.locations[playerId], action);
    NearMaxIsNeighbourMax(game.board, action.build, cells.0, cells.1);
    NeighbourMaxUnique(game.board, action.build, cells.0, cells.1, m,
                       NearMax(game.board, BlockingCandidates(action.build), cells.0, cells.1));
  }

  /** The towers under the acting player's own post-move cells never affect the
      score: two boards that differ only there (and agree on the build cell)
      score every build alike. */
  lemma BlockingIgnoresOwnCells(game: Game, board': Board, playerId: nat, action: Action,
                                isNearPlayer: bool, willBeNearPlayer: bool)
    requires playerId < 3 && OnBoard(action.build)
    requires var cells := PostMoveCells(game.locations[playerId], action);
      forall c: Coord :: OnBoard(c) && c != cells.0 && c != cells.1 ==> Cell(board', c) == Cell(game.board, c)
    requires Cell(board', action.build) == Cell(game.board, action.build)
    ensures BlockingScore(game.(board := board'), playerId, action, isNearPlayer, willBeNearPlayer, true)
         == BlockingScore(game, playerId, action, isNearPlayer, willBeNearPlayer, true)
  {
    var cells := PostMoveCells(game.locations[playerId], action);
    var b := action.build;
    var m := NearMax(game.board, BlockingCandidates(b), cells.0, cells.1);
    NearMaxIsNeighbourMax(game.board, b, cells.0, cells.1);
    assert IsNeighbourMax(board', b, cells.0, cells.1, m);
    BlockingScoreMeaning(game.(board := board'), playerId, action, isNearPlayer, willBeNearPlayer, m);
  }
}
