/** Board features fed to the win-prediction network: tower heights under a
    player's workers, a count of squares the workers could move to, and the
    six-slot input vector. The engine's `can_move_to_square` and
    `can_win_on_next_turn` are not defined in the library and are passed in
    as functions. */
module GamePrediction {
  import opened Santorini

  /** Both workers of the pair are on the board; a player not yet placed (or a
      dead slot's sentinel such as (17, 17)) fails this. */
  predicate PairOnBoard(pair: WorkerPair) {
    OnBoard(pair.0) && OnBoard(pair.1)
  }

  /** `get_total_height`: the towers under both workers added up, 0 when either
      worker is off the board. */
  function TotalHeight(game: Game, playerId: nat): (r: nat)
    requires playerId < 3
    ensures r <= 8
    ensures !PairOnBoard(game.locations[playerId]) ==> r == 0
  {
    var (w1, w2) := game.locations[playerId];
    if w1.0 >= 5 || w1.1 >= 5 || w2.0 >= 5 || w2.1 >= 5 then 0
    else Height(Cell(game.board, w1)) + Height(Cell(game.board, w2))
  }

  /** `get_max_height`: the taller of the two workers' towers, with the same guard. */
  function MaxHeight(game: Game, playerId: nat): (r: nat)
    requires playerId < 3
    ensures r <= 4
    ensures !PairOnBoard(game.locations[playerId]) ==> r == 0
    ensures PairOnBoard(game.locations[playerId]) ==>
      var (w1, w2) := game.locations[playerId];
      && Height(Cell(game.board, w1)) <= r && Height(Cell(game.board, w2)) <= r
      && (r == Height(Cell(game.board, w1)) || r == Height(Cell(game.board, w2)))
  {
    var (w1, w2) := game.locations[playerId];
    if w1.0 >= 5 || w1.1 >= 5 || w2.0 >= 5 || w2.1 >= 5 then 0
    else
      var h1 := Height(Cell(game.board, w1));
      var h2 := Height(Cell(game.board, w2));
      if h1 >= h2 then h1 else h2
  }

  /** The maximum never exceeds the total and the total never exceeds twice the
      maximum; on the board the total is the maximum plus the smaller height. */
  lemma MaxBoundsTotal(game: Game, playerId: nat)
    requires playerId < 3
    ensures MaxHeight(game, playerId) <= TotalHeight(game, playerId) <= 2 * MaxHeight(game, playerId)
    ensures PairOnBoard(game.locations[playerId]) ==>
      var (w1, w2) := game.locations[playerId];
      var h1 := Height(Cell(game.board, w1));
      var h2 := Height(Cell(game.board, w2));
      TotalHeight(game, playerId) == MaxHeight(game, playerId) + (if h1 <= h2 then h1 else h2)
  {
  }

  /* ---------- squares_movable_to ---------- */

  /** `v.saturating_sub(1)` on a u8: 0 stays 0. */
  function SaturatingDec(v: Byte): (r: Byte)
    ensures v == 0 ==> r == 0
    ensures v > 0 ==> r + 1 == v
  {
    if v == 0 then 0 else v - 1
  }

  /** The coordinates the loops try for one axis, `[v - 1, v, v + 1]` with
      saturating subtraction, keeping those below 5. */
  function AxisCandidates(v: Byte): (r: seq<Byte>)
    requires v < 5
    ensures forall k :: 0 <= k < |r| ==> r[k] < 5
  {
    Below5([SaturatingDec(v), v, v + 1])
  }

  function Below5(vs: seq<Byte>): (r: seq<Byte>)
    ensures |r| <= |vs|
    ensures forall x :: x in r <==> x in vs && x < 5
    ensures forall k :: 0 <= k < |r| ==> r[k] < 5
  {
    if vs == [] then []
    else if vs[0] < 5 then [vs[0]] + Below5(vs[1..])
    else Below5(vs[1..])
  }

  /** Every (row, column) pair from the two candidate lists, row-major. */
  function Product(rows: seq<Byte>, cols: seq<Byte>): seq<Coord> {
    if rows == [] then [] else RowOf(rows[0], cols) + Product(rows[1..], cols)
  }

  lemma {:induction false} ProductLength(rows: seq<Byte>, cols: seq<Byte>)
    requires |rows| <= 3 && |cols| <= 3
    ensures |Product(rows, cols)| <= 3 * |rows|
  {
    if rows != [] {
      ProductLength(rows[1..], cols);
    }
  }

  lemma {:induction false} ProductMember(rows: seq<Byte>, cols: seq<Byte>, c: Coord)
    ensures c in Product(rows, cols) <==> c.0 in rows && c.1 in cols
  {
    if rows != [] {
      ProductMember(rows[1..], cols, c);
      assert rows == [rows[0]] + rows[1..];
      if c.0 == rows[0] && c.1 in cols {
        var k :| 0 <= k < |cols| && cols[k] == c.1;
        assert RowOf(rows[0], cols)[k] == c;
      }
    }
  }

  /** The cells of one row of the product. */
  function RowOf(row: Byte, cols: seq<Byte>): (r: seq<Coord>)
    ensures |r| == |cols|
    ensures forall k :: 0 <= k < |r| ==> r[k] == (row, cols[k])
  {
    if cols == [] then [] else [(row, cols[0])] + RowOf(row, cols[1..])
  }

  /** The cells `squares_movable_to` asks the engine about for a worker at w,
      in the order it asks. */
  function TestedCells(w: Coord): (cells: seq<Coord>)
    requires OnBoard(w)
    ensures |cells| <= 9
  {
    ProductLength(AxisCandidates(w.0), AxisCandidates(w.1));
    Product(AxisCandidates(w.0), AxisCandidates(w.1))
  }

  /** The tested cells, as a set, are the on-board cells within one king move
      of the worker; only the order and the repeats at the low edges differ
      from the intended list. */
  lemma TestedCellsMembers(w: Coord, c: Coord)
    requires OnBoard(w)
    ensures c in TestedCells(w) <==> OnBoard(c) && Chebyshev(c, w) <= 1
  {
    ProductMember(AxisCandidates(w.0), AxisCandidates(w.1), c);
    AxisMember(w.0, c.0);
    AxisMember(w.1, c.1);
  }

  /** One axis: the candidates are the coordinates below 5 at most one step away. */
  lemma AxisMember(v: Byte, x: Byte)
    requires v < 5
    ensures x in AxisCandidates(v) <==> x < 5 && v - 1 <= x <= v + 1
  {
  }

  function CountMovable(canMove: (Worker, Coord) -> bool, worker: Worker, cells: seq<Coord>): (n: nat)
    ensures n <= |cells|
  {
    if cells == [] then 0
    else (if canMove(worker, cells[0]) then 1 else 0) + CountMovable(canMove, worker, cells[1..])
  }

  /** One worker's share of the count; a worker with an off-board coordinate is skipped. */
  function WorkerMovableCount(canMove: (Worker, Coord) -> bool, worker: Worker, w: Coord): (n: nat)
    ensures n <= 9
    ensures !OnBoard(w) ==> n == 0
  {
    if w.0 >= 5 || w.1 >= 5 then 0 else CountMovable(canMove, worker, TestedCells(w))
  }

  /** `squares_movable_to`: how many of the tested cells the engine says each
      worker can move to, both workers together; at most 9 tests per worker. */
  function SquaresMovableTo(game: Game, playerId: nat, canMove: (Worker, Coord) -> bool): (count: nat)
    requires playerId < 3
    ensures count <= 18
    ensures !PairOnBoard(game.locations[playerId]) ==>
      count == (if OnBoard(game.locations[playerId].0) then WorkerMovableCount(canMove, One, game.locations[playerId].0)
                else WorkerMovableCount(canMove, Two, game.locations[playerId].1))
  {
    var (w1, w2) := game.locations[playerId];
    WorkerMovableCount(canMove, One, w1) + WorkerMovableCount(canMove, Two, w2)
  }

  /** At the low edge the saturating subtraction repeats the coordinate: a
      worker in the corner (0, 0) has (0, 0) tested four times, and when every
      move is allowed it counts 9 squares although only 4 cells exist within
      one step; in the opposite corner (4, 4) it counts 4. */
  lemma EdgeCellsCountedTwice()
    ensures TestedCells((0, 0)) == [(0, 0), (0, 0), (0, 1), (0, 0), (0, 0), (0, 1), (1, 0), (1, 0), (1, 1)]
    ensures CountMovable((_, _) => true, One, TestedCells((0, 0))) == 9
    ensures CountMovable((_, _) => true, One, TestedCells((4, 4))) == 4
  {
    LowCornerCells();
    HighCornerCells();
    AllMovable(TestedCells((0, 0)));
    AllMovable(TestedCells((4, 4)));
  }

  lemma LowCornerCells()
    ensures TestedCells((0, 0)) == [(0, 0), (0, 0), (0, 1), (0, 0), (0, 0), (0, 1), (1, 0), (1, 0), (1, 1)]
  {
    var axis: seq<Byte> := [0, 0, 1];
    AxisAtZero();
    var r0 := RowOf(0, axis);
    var r1 := RowOf(1, axis);
    assert r0 == [(0, 0), (0, 0), (0, 1)];
    assert r1 == [(1, 0), (1, 0), (1, 1)];
    ProductStep(axis[2..], axis, []);
    ProductStep(axis[1..], axis, r1);
    ProductStep(axis, axis, r0 + r1);
    assert r0 + (r0 + r1) == [(0, 0), (0, 0), (0, 1), (0, 0), (0, 0), (0, 1), (1, 0), (1, 0), (1, 1)];
  }

  lemma AxisAtZero()
    ensures AxisCandidates(0) == [0, 0, 1]
  {
    var full: seq<Byte> := [0, 0, 1];
    assert Below5(full[2..]) == [1];
    assert Below5(full[1..]) == [0, 1];
  }

  lemma AxisAtFour()
    ensures AxisCandidates(4) == [3, 4]
  {
    var full: seq<Byte> := [3, 4, 5];
    assert [SaturatingDec(4), 4, 4 + 1] == full;
    assert Below5(full[2..][1..]) == [];
    assert Below5(full[2..]) == [];
    assert Below5(full[1..]) == [4];
  }

  /** One unfolding of Product, with the rest already known. */
  lemma ProductStep(rows: seq<Byte>, cols: seq<Byte>, rest: seq<Coord>)
    requires rows != [] && Product(rows[1..], cols) == rest
    ensures Product(rows, cols) == RowOf(rows[0], cols) + rest
  {
  }

  lemma HighCornerCells()
    ensures TestedCells((4, 4)) == [(3, 3), (3, 4), (4, 3), (4, 4)]
  {
    var axis: seq<Byte> := [3, 4];
    AxisAtFour();
    var r3 := RowOf(3, axis);
    var r4 := RowOf(4, axis);
    assert r3 == [(3, 3), (3, 4)];
    assert r4 == [(4, 3), (4, 4)];
    ProductStep(axis[1..], axis, []);
    ProductStep(axis, axis, r4);
    assert r3 + r4 == [(3, 3), (3, 4), (4, 3), (4, 4)];
  }

  lemma {:induction false} AllMovable(cells: seq<Coord>)
    ensures CountMovable((_, _) => true, One, cells) == |cells|
  {
    if cells != [] {
      AllMovable(cells[1..]);
    }
  }

  /* The evidently intended neighbourhood: signed offsets, so a coordinate of 0
     contributes no -1 row and no cell is tested twice. */

  function IntendedAxisCandidates(v: Byte): (r: seq<Byte>)
    requires v < 5
    ensures forall k, l :: 0 <= k < l < |r| ==> r[k] < r[l]
    ensures forall x: Byte :: x in r <==> x < 5 && v - 1 <= x <= v + 1
  {
    (if v > 0 then [v - 1] else []) + [v] + (if v < 4 then [v + 1] else [])
  }

  lemma {:induction false} ProductDistinct(rows: seq<Byte>, cols: seq<Byte>)
    requires forall k, l :: 0 <= k < l < |rows| ==> rows[k] != rows[l]
    requires forall k, l :: 0 <= k < l < |cols| ==> cols[k] != cols[l]
    ensures forall i, j :: 0 <= i < j < |Product(rows, cols)| ==> Product(rows, cols)[i] != Product(rows, cols)[j]
  {
    if rows != [] {
      var block := RowOf(rows[0], cols);
      var rest := Product(rows[1..], cols);
      ProductDistinct(rows[1..], cols);
      var r := block + rest;
      forall i, j | 0 <= i < j < |r| ensures r[i] != r[j] {
        if j < |block| {
          assert r[i] == (rows[0], cols[i]) && r[j] == (rows[0], cols[j]);
        } else if i >= |block| {
          assert r[i] == rest[i - |block|] && r[j] == rest[j - |block|];
        } else {
          assert r[i].0 == rows[0];
          assert r[j] == rest[j - |block|];
          assert r[j] in rest;
          ProductMember(rows[1..], cols, r[j]);
          var k :| 0 <= k < |rows[1..]| && rows[1..][k] == r[j].0;
          assert rows[k + 1] == r[j].0;
        }
      }
    }
  }

  lemma IntendedCellsMembers(w: Coord, rows: seq<Byte>, cols: seq<Byte>)
    requires OnBoard(w) && rows == IntendedAxisCandidates(w.0) && cols == IntendedAxisCandidates(w.1)
    ensures forall c :: c in Product(rows, cols) <==> OnBoard(c) && Chebyshev(c, w) <= 1
  {
    forall c: Coord ensures c in Product(rows, cols) <==> OnBoard(c) && Chebyshev(c, w) <= 1 {
      ProductMember(rows, cols, c);
    }
  }

  /** The corrected tested cells: exactly the on-board cells within one king
      move of w (w included), each tested once. */
  function IntendedTestedCells(w: Coord): (cells: seq<Coord>)
    requires OnBoard(w)
    ensures forall c :: c in cells <==> OnBoard(c) && Chebyshev(c, w) <= 1
    ensures forall i, j :: 0 <= i < j < |cells| ==> cells[i] != cells[j]
  {
    var rows := IntendedAxisCandidates(w.0);
    var cols := IntendedAxisCandidates(w.1);
    assert forall k, l :: 0 <= k < l < |rows| ==> rows[k] != rows[l];
    assert forall k, l :: 0 <= k < l < |cols| ==> cols[k] != cols[l];
    ProductDistinct(rows, cols);
    var cells := Product(rows, cols);
    IntendedCellsMembers(w, rows, cols);
    cells
  }

  /* ---------- generate_input ---------- */

  /** The slot k seats after playerId round the table of three. */
  function Seat(playerId: nat, k: nat): (q: nat)
    ensures q < 3
  {
    (playerId + k) % 3
  }

  /** `generate_input`: slots 0 to 2 are the can-win-next-turn flags (1 or 0)
      of the player and of the next two slots round the table, slots 3 to 5
      the same three players' total heights. */
  function GenerateInput(game: Game, playerId: nat, canWin: nat -> bool): (input: seq<int>)
    requires playerId < 3
    ensures |input| == 6
    ensures forall k :: 0 <= k < 3 ==> (input[k] == 1 <==> canWin(Seat(playerId, k)))
    ensures forall k :: 0 <= k < 3 ==> (input[k] == 0 <==> !canWin(Seat(playerId, k)))
    ensures forall k :: 3 <= k < 6 ==> input[k] == TotalHeight(game, Seat(playerId, k - 3))
  {
    var p1 := Seat(playerId, 1);
    var p2 := Seat(playerId, 2);
    assert Seat(playerId, 0) == playerId;
    [if canWin(playerId) then 1 else 0, if canWin(p1) then 1 else 0, if canWin(p2) then 1 else 0,
     TotalHeight(game, playerId), TotalHeight(game, p1), TotalHeight(game, p2)]
  }

  /** The next player's input is this player's input rotated by one seat in
      both halves: the features are relative to the player asked about. */
  lemma GenerateInputRotates(game: Game, playerId: nat, canWin: nat -> bool)
    requires playerId < 3
    ensures GenerateInput(game, Seat(playerId, 1), canWin)[0] == GenerateInput(game, playerId, canWin)[1]
    ensures GenerateInput(game, Seat(playerId, 1), canWin)[1] == GenerateInput(game, playerId, canWin)[2]
    ensures GenerateInput(game, Seat(playerId, 1), canWin)[2] == GenerateInput(game, playerId, canWin)[0]
    ensures GenerateInput(game, Seat(playerId, 1), canWin)[3] == GenerateInput(game, playerId, canWin)[4]
    ensures GenerateInput(game, Seat(playerId, 1), canWin)[4] == GenerateInput(game, playerId, canWin)[5]
    ensures GenerateInput(game, Seat(playerId, 1), canWin)[5] == GenerateInput(game, playerId, canWin)[3]
  {
    var q := Seat(playerId, 1);
    assert Seat(q, 0) == Seat(playerId, 1) && Seat(q, 1) == Seat(playerId, 2) && Seat(q, 2) == Seat(playerId, 0) by {
      if playerId == 0 {
      } else if playerId == 1 {
      } else {
      }
    }
    var here := GenerateInput(game, playerId, canWin);
    var next := GenerateInput(game, q, canWin);
    assert next[3] == here[4] && next[4] == here[5] && next[5] == here[3];
  }
}
