/** The game's data model (tower heights, workers, player statuses, the game
    snapshot) together with `Game::new` and one pass of the turn loop as the
    library currently writes it.

    The rule engine itself (legality check, action enumeration, applying an
    action) is not defined in the library; where a component needs it, the
    engine's answer is passed in as a parameter. */
module Santorini {

  datatype Option<T> = None | Some(value: T)

  /** An unsigned 8-bit integer: the type of every board coordinate. */
  type Byte = x: int | 0 <= x < 256

  /** A board coordinate (row, column); on the board when both are at most 4. */
  type Coord = (Byte, Byte)

  predicate OnBoard(c: Coord) {
    c.0 <= 4 && c.1 <= 4
  }

  /** The larger of two whole numbers, shared by the scorers. */
  function Max(a: int, b: int): int {
    if a >= b then a else b
  }

  /** Chebyshev (king-move) distance between two cells, in exact arithmetic. */
  function Chebyshev(a: Coord, b: Coord): (d: nat)
    ensures d == 0 <==> a == b
  {
    var dr := if a.0 >= b.0 then a.0 - b.0 else b.0 - a.0;
    var dc := if a.1 >= b.1 then a.1 - b.1 else b.1 - a.1;
    if dr >= dc then dr else dc
  }

  datatype TowerState = Empty | Level1 | Level2 | Level3 | Capped

  /** The tower states in the order the library declares them. */
  const TowerOrder: seq<TowerState> := [Empty, Level1, Level2, Level3, Capped]

  /** The engine's `to_int`. Its body is not part of the library; this model
      ASSUMES it is the declaration-order ordinal, Empty 0 up to Capped 4. */
  function Height(t: TowerState): (h: nat)
    ensures h < |TowerOrder| && TowerOrder[h] == t
  {
    match t
    case Empty => 0
    case Level1 => 1
    case Level2 => 2
    case Level3 => 3
    case Capped => 4
  }

  /** Heights are distinct, so comparing heights orders the states as declared. */
  lemma HeightInjective(s: TowerState, t: TowerState)
    ensures Height(s) == Height(t) <==> s == t
    ensures Height(Empty) < Height(Level1) < Height(Level2) < Height(Level3) < Height(Capped)
  {
  }

  datatype Worker = One | Two

  datatype Status = Playing | Dead

  type Row = r: seq<TowerState> | |r| == 5 witness [Empty, Empty, Empty, Empty, Empty]

  /** The 5x5 grid of tower states, indexed board[row][column]. */
  type Board = b: seq<Row> | |b| == 5
    witness [[Empty, Empty, Empty, Empty, Empty], [Empty, Empty, Empty, Empty, Empty],
             [Empty, Empty, Empty, Empty, Empty], [Empty, Empty, Empty, Empty, Empty],
             [Empty, Empty, Empty, Empty, Empty]]

  /** A player's two worker cells, worker One first. */
  type WorkerPair = (Coord, Coord)

  /** One worker pair for each of the three player slots. */
  type Locations = s: seq<WorkerPair> | |s| == 3
    witness [((17, 17), (17, 17)), ((17, 17), (17, 17)), ((17, 17), (17, 17))]

  type Statuses = s: seq<Status> | |s| == 3 witness [Dead, Dead, Dead]

  /** The snapshot every player and scorer reads. */
  datatype Game = Game(board: Board, locations: Locations, statuses: Statuses)

  /** A turn: which worker moves, where it moves to, where it then builds. */
  datatype Action = Action(worker: Worker, movement: Coord, build: Coord)

  /** The placeholder every player returns when it has no legal action. */
  const NoAction: Action := Action(One, (0, 0), (0, 0))

  function Cell(board: Board, c: Coord): TowerState
    requires OnBoard(c)
  {
    board[c.0][c.1]
  }

  /** The cell of the chosen worker in a pair. */
  function WorkerCell(pair: WorkerPair, w: Worker): Coord {
    if w == One then pair.0 else pair.1
  }

  const EmptyBoard: Board := seq(5, _ => [Empty, Empty, Empty, Empty, Empty])

  /** `Game::new`: slot i is Playing exactly when a strategy is bound to it,
      the board starts empty and the locations are kept as given. */
  function NewGame(present: seq<bool>, locations: Locations): (g: Game)
    requires |present| == 3
    ensures forall i :: 0 <= i < 3 ==> (g.statuses[i] == Playing <==> present[i])
    ensures forall c: Coord :: OnBoard(c) ==> Cell(g.board, c) == Empty
    ensures g.locations == locations
    ensures PlayingOnBoard(g) <==>
      forall i :: 0 <= i < 3 && present[i] ==> OnBoard(locations[i].0) && OnBoard(locations[i].1)
  {
    var statuses := seq(3, i requires 0 <= i < 3 => if present[i] then Playing else Dead);
    Game(EmptyBoard, locations, statuses)
  }

  /** What one call of a player's `get_action` receives inside the turn loop. */
  datatype Query = Query(slot: nat, worker1: Coord, worker2: Coord,
                         board: Board, locations: Locations, statuses: Statuses)

  /** A slot takes part in the turn loop when it is Playing and has a strategy. */
  predicate Asked(g: Game, present: seq<bool>, i: nat)
    requires |present| == 3 && i < 3
  {
    g.statuses[i] == Playing && present[i]
  }

  /** The slots among i, i+1, ..., 2 that one pass of the turn loop asks, in order. */
  function AskedFrom(g: Game, present: seq<bool>, i: nat): (slots: seq<nat>)
    requires |present| == 3 && i <= 3
    ensures forall k :: 0 <= k < |slots| ==> i <= slots[k] < 3 && Asked(g, present, slots[k])
    ensures forall k, l :: 0 <= k < l < |slots| ==> slots[k] < slots[l]
    ensures forall j :: i <= j < 3 && Asked(g, present, j) ==> j in slots
    decreases 3 - i
  {
    if i == 3 then []
    else if Asked(g, present, i) then [i] + AskedFrom(g, present, i + 1)
    else AskedFrom(g, present, i + 1)
  }

  /** Every Playing slot's two worker cells are on the board. Before asking a
      player, the loop prints the board, and the printer indexes the cells of
      every Playing slot, so a pass that asks anyone panics unless this holds. */
  predicate PlayingOnBoard(g: Game) {
    forall i :: 0 <= i < 3 && g.statuses[i] == Playing ==> OnBoard(g.locations[i].0) && OnBoard(g.locations[i].1)
  }

  /** A pass can print the board: it asks nobody, or every Playing slot's cells are on the board. */
  predicate PassCanPrint(g: Game, present: seq<bool>)
    requires |present| == 3
  {
    (exists i :: 0 <= i < 3 && Asked(g, present, i)) ==> PlayingOnBoard(g)
  }

  /** One pass of `Game::main_loop`: the Playing slots with a strategy, in increasing
      slot order, each asked for an action with its own two worker cells and the
      current snapshot. */
  function LoopPass(g: Game, present: seq<bool>): (qs: seq<Query>)
    requires |present| == 3
    requires PassCanPrint(g, present)
    ensures forall k :: 0 <= k < |qs| ==> qs[k].slot < 3 && Asked(g, present, qs[k].slot)
    ensures forall j :: 0 <= j < 3 && Asked(g, present, j) ==> exists k :: 0 <= k < |qs| && qs[k].slot == j
    ensures forall k, l :: 0 <= k < l < |qs| ==> qs[k].slot < qs[l].slot
    ensures forall k :: 0 <= k < |qs| ==>
      && (qs[k].worker1, qs[k].worker2) == g.locations[qs[k].slot]
      && qs[k].board == g.board && qs[k].locations == g.locations && qs[k].statuses == g.statuses
  {
    var slots := AskedFrom(g, present, 0);
    var qs := seq(|slots|, k requires 0 <= k < |slots| =>
      Query(slots[k], g.locations[slots[k]].0, g.locations[slots[k]].1, g.board, g.locations, g.statuses));
    QueriesCoverSlots(slots, qs);
    qs
  }

  lemma QueriesCoverSlots(slots: seq<nat>, qs: seq<Query>)
    requires |qs| == |slots| && forall k :: 0 <= k < |qs| ==> qs[k].slot == slots[k]
    ensures forall j :: j in slots ==> exists k :: 0 <= k < |qs| && qs[k].slot == j
  {
    forall j | j in slots ensures exists k :: 0 <= k < |qs| && qs[k].slot == j {
      var k :| 0 <= k < |slots| && slots[k] == j;
      assert qs[k].slot == j;
    }
  }

  /** The game after one pass: each player's returned action is bound to a
      local and never applied, so board, locations and statuses stay as they were. */
  function AfterPass(g: Game, present: seq<bool>): Game
    requires |present| == 3
  {
    g
  }

  /** k passes of the loop (which has no exit): the queries made, in order, and
      the game afterwards. */
  function Rounds(g: Game, present: seq<bool>, k: nat): (r: (seq<Query>, Game))
    requires |present| == 3
    requires PassCanPrint(g, present)
    ensures r.1 == g
  {
    if k == 0 then ([], g)
    else
      var (earlier, g') := Rounds(g, present, k - 1);
      (earlier + LoopPass(g', present), AfterPass(g', present))
  }

  function Repeat<T>(s: seq<T>, k: nat): (r: seq<T>)
    ensures |r| == k * |s|
  {
    if k == 0 then [] else Repeat(s, k - 1) + s
  }

  /** However many passes run, the game never changes and every pass asks the
      same questions as the first. */
  lemma {:induction false} RoundsNeverProgress(g: Game, present: seq<bool>, k: nat)
    requires |present| == 3
    requires PassCanPrint(g, present)
    ensures Rounds(g, present, k).1 == g
    ensures Rounds(g, present, k).0 == Repeat(LoopPass(g, present), k)
  {
    if k > 0 {
      RoundsNeverProgress(g, present, k - 1);
    }
  }

  /** Right after `Game::new`, the loop asks exactly the slots that have a
      strategy, each with the worker cells it was created with. */
  lemma NewGameAsksBoundSlots(present: seq<bool>, locations: Locations)
    requires |present| == 3
    requires forall i :: 0 <= i < 3 && present[i] ==> OnBoard(locations[i].0) && OnBoard(locations[i].1)
    ensures var qs := LoopPass(NewGame(present, locations), present);
      && (forall j :: 0 <= j < 3 && present[j] ==> exists k :: 0 <= k < |qs| && qs[k].slot == j)
      && (forall k :: 0 <= k < |qs| ==>
            qs[k].slot < 3 && present[qs[k].slot] && (qs[k].worker1, qs[k].worker2) == locations[qs[k].slot])
  {
    var g := NewGame(present, locations);
    assert forall j :: 0 <= j < 3 ==> (Asked(g, present, j) <==> present[j]);
    var qs := LoopPass(g, present);
    assert forall j :: 0 <= j < 3 && present[j] ==> exists k :: 0 <= k < |qs| && qs[k].slot == j;
  }
}
