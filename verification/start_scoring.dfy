/** The three start-cell scorers of the genetic player. Each scores a
    candidate start cell s given the placements already committed and, when
    the first worker is already chosen, that worker's cell.

    The library converts the u8 coordinates with `as i8` and does its
    arithmetic in i8. Casts and arithmetic are modelled with two's-complement
    wrap-around (the behaviour of a release build; a debug build would panic
    on the overflowing operations instead). For coordinates below 64 nothing
    wraps, and the lemmas below state the scores in exact arithmetic there. */
module StartScoring {
  import opened Santorini

  /** `v as i8` for a u8 value. */
  function AsI8(v: Byte): int {
    if v < 128 then v else v - 256
  }

  /** Wraps a whole number into the i8 range -128..127. */
  function WrapI8(v: int): (r: int)
    ensures -128 <= r < 128
    ensures -128 <= v < 128 ==> r == v
  {
    (v + 128) % 256 - 128
  }

  /** i8 `a - b`, `a + b` and `a.abs()` with wrap-around. */
  function SubI8(a: int, b: int): int { WrapI8(a - b) }
  function AddI8(a: int, b: int): int { WrapI8(a + b) }
  function AbsI8(a: int): int { WrapI8(if a < 0 then -a else a) }

  /** Coordinates small enough that no i8 operation of the scorers wraps. */
  predicate Small(c: Coord) {
    c.0 < 64 && c.1 < 64
  }

  predicate SmallPlacements(placed: seq<WorkerPair>) {
    forall k :: 0 <= k < |placed| ==> Small(placed[k].0) && Small(placed[k].1)
  }

  /* ---------- StartNearPlayers ---------- */

  /** The scorer's king-move distance `(w.0 - s.0).abs().max((w.1 - s.1).abs())`. */
  function DistanceI8(w: Coord, s: Coord): (r: int)
    ensures -128 <= r < 128
    ensures r < 0 ==> r == -128
  {
    Max(AbsI8(SubI8(AsI8(w.0), AsI8(s.0))), AbsI8(SubI8(AsI8(w.1), AsI8(s.1))))
  }

  /** For small coordinates the scorer's distance is the Chebyshev distance. */
  lemma DistanceI8Exact(w: Coord, s: Coord)
    requires Small(w) && Small(s)
    ensures DistanceI8(w, s) == Chebyshev(w, s)
  {
  }

  /** The contribution of one committed pair: both workers' distances to s,
      added in i8, so the sum stays in -128..127. */
  function PairDistance(pair: WorkerPair, s: Coord): (r: int)
    ensures -128 <= r < 128
  {
    AddI8(DistanceI8(pair.0, s), DistanceI8(pair.1, s))
  }

  /** The per-pair sums added up as f32 (exact for these small values). */
  function SumPairDistances(placed: seq<WorkerPair>, s: Coord): (r: int)
    ensures placed == [] ==> r == 0
    ensures -128 * |placed| <= r <= 127 * |placed|
  {
    if placed == [] then 0 else PairDistance(placed[0], s) + SumPairDistances(placed[1..], s)
  }

  /** StartNearPlayers: minus the total distance from s to every committed worker. */
  function StartNearPlayers(placed: seq<WorkerPair>, s: Coord, other: Option<Coord>): (r: int)
    ensures placed == [] ==> r == 0
  {
    -SumPairDistances(placed, s)
  }

  lemma {:induction false} SumPairDistancesAppend(placed: seq<WorkerPair>, pair: WorkerPair, s: Coord)
    ensures SumPairDistances(placed + [pair], s) == SumPairDistances(placed, s) + PairDistance(pair, s)
  {
    if placed != [] {
      assert (placed + [pair])[1..] == placed[1..] + [pair];
      SumPairDistancesAppend(placed[1..], pair, s);
    }
  }

  lemma {:induction false} SumPairDistancesExact(placed: seq<WorkerPair>, s: Coord)
    requires SmallPlacements(placed) && Small(s)
    ensures SumPairDistances(placed, s) >= 0
    ensures placed != [] ==>
      SumPairDistances(placed, s) == Chebyshev(placed[0].0, s) + Chebyshev(placed[0].1, s) + SumPairDistances(placed[1..], s)
  {
    if placed != [] {
      DistanceI8Exact(placed[0].0, s);
      DistanceI8Exact(placed[0].1, s);
      SumPairDistancesExact(placed[1..], s);
    }
  }

  /** With small coordinates the score is never positive, is minus the sum of
      Chebyshev distances, and committing one more pair never raises it. */
  lemma StartNearPlayersMonotone(placed: seq<WorkerPair>, pair: WorkerPair, s: Coord, other: Option<Coord>)
    requires SmallPlacements(placed) && Small(pair.0) && Small(pair.1) && Small(s)
    ensures StartNearPlayers(placed, s, other) <= 0
    ensures StartNearPlayers(placed + [pair], s, other)
         == StartNearPlayers(placed, s, other) - Chebyshev(pair.0, s) - Chebyshev(pair.1, s)
    ensures StartNearPlayers(placed + [pair], s, other) <= StartNearPlayers(placed, s, other)
  {
    SumPairDistancesExact(placed, s);
    SumPairDistancesAppend(placed, pair, s);
    DistanceI8Exact(pair.0, s);
    DistanceI8Exact(pair.1, s);
  }

  /** The other worker's cell plays no part in StartNearPlayers. */
  lemma StartNearPlayersIgnoresOther(placed: seq<WorkerPair>, s: Coord, o1: Option<Coord>, o2: Option<Coord>)
    ensures StartNearPlayers(placed, s, o1) == StartNearPlayers(placed, s, o2)
  {
  }

  /* ---------- StartNearMiddle ---------- */

  /** StartNearMiddle as written: `-(s.0 - 2).max(s.1 - 2).abs()`; the absolute
      value is taken of the larger signed offset, not of each offset. The
      negation is also an i8 operation (it binds tighter than the `as f32`
      conversion), so it wraps like the rest. */
  function StartNearMiddle(placed: seq<WorkerPair>, s: Coord, other: Option<Coord>): (r: int)
    ensures OnBoard(s) ==> -2 <= r <= 0
    ensures OnBoard(s) ==> (r == 0 <==> Max(s.0, s.1) == 2)
  {
    WrapI8(-AbsI8(Max(SubI8(AsI8(s.0), 2), SubI8(AsI8(s.1), 2))))
  }

  /** Far off the board every i8 step wraps: (130, 130) is read as (-126, -126),
      the offset -128 has absolute value -128 in i8, and negating it wraps back
      to -128. */
  lemma StartNearMiddleWraps()
    ensures StartNearMiddle([], (130, 130), None) == -128
  {
  }

  /** Only the candidate cell matters to StartNearMiddle. */
  lemma StartNearMiddleIgnoresContext(p1: seq<WorkerPair>, p2: seq<WorkerPair>, s: Coord, o1: Option<Coord>, o2: Option<Coord>)
    ensures StartNearMiddle(p1, s, o1) == StartNearMiddle(p2, s, o2)
  {
  }

  /** The edge cell (0, 2) scores as well as the centre (2, 2). */
  lemma StartNearMiddleEdgeCounterexample()
    ensures StartNearMiddle([], (0, 2), None) == StartNearMiddle([], (2, 2), None) == 0
    ensures Chebyshev((0, 2), (2, 2)) == 2
  {
  }

  /** The evidently intended StartNearMiddle: minus the king-move distance to the centre. */
  function IntendedNearMiddle(s: Coord): (r: int)
    requires Small(s)
    ensures r == -(Chebyshev(s, (2, 2)) as int)
    ensures OnBoard(s) ==> -2 <= r <= 0
    ensures r == 0 <==> s == (2, 2)
  {
    DistanceI8Exact(s, (2, 2));
    -DistanceI8(s, (2, 2))
  }

  /* ---------- StartAwayFromOtherWorker ---------- */

  /** StartAwayFromOtherWorker as written: with the other worker at ow the score
      is `(s.0 - ow.0).max(s.1 - ow.0).abs()`, ow.0 being used for both axes;
      0 while no other worker is placed. */
  function StartAwayFromOtherWorker(placed: seq<WorkerPair>, s: Coord, other: Option<Coord>): (r: int)
    ensures other == None ==> r == 0
    ensures Small(s) && other.Some? && Small(other.value) ==> r >= 0
  {
    match other
    case None => 0
    case Some(ow) => AbsI8(Max(SubI8(AsI8(s.0), AsI8(ow.0)), SubI8(AsI8(s.1), AsI8(ow.0))))
  }

  /** The other worker's column never affects the score. */
  lemma StartAwayIgnoresColumn(placed: seq<WorkerPair>, s: Coord, row: Byte, c1: Byte, c2: Byte)
    ensures StartAwayFromOtherWorker(placed, s, Some((row, c1))) == StartAwayFromOtherWorker(placed, s, Some((row, c2)))
  {
  }

  /** The scorer with only the column typo repaired: `(s.0 - ow.0).max(s.1 - ow.1).abs()`.
      It still takes the absolute value of the larger signed offset. */
  function TypoFixedAway(s: Coord, ow: Coord): (r: int)
    ensures -128 <= r < 128
  {
    AbsI8(Max(SubI8(AsI8(s.0), AsI8(ow.0)), SubI8(AsI8(s.1), AsI8(ow.1))))
  }

  /** The column typo alone: with ow = (2, 0), two columns left of s = (2, 2),
      the written scorer compares s.1 with ow.0 and scores 0, where reading
      ow.1 gives the distance 2. */
  lemma StartAwayColumnCounterexample()
    ensures StartAwayFromOtherWorker([], (2, 2), Some((2, 0))) == 0
    ensures TypoFixedAway((2, 2), (2, 0)) == 2
    ensures IntendedAwayFromOther((2, 2), Some((2, 0))) == 2
  {
  }

  /** As written, a worker four columns away scores as if it stood on the
      cell itself. */
  lemma StartAwayCounterexample()
    ensures StartAwayFromOtherWorker([], (0, 0), Some((0, 4))) == 0
    ensures Chebyshev((0, 0), (0, 4)) == 4
  {
  }

  /** The absolute value of the larger signed offset is a defect of its own:
      with the column typo repaired, a worker four columns away still scores 0. */
  lemma TypoFixedAwayCounterexample()
    ensures TypoFixedAway((0, 0), (0, 4)) == 0
    ensures Chebyshev((0, 0), (0, 4)) == 4
  {
  }

  /** The same defect off the axes: with the typo repaired, (0, 3) against
      (2, 2) scores 1, where the Chebyshev distance is 2. */
  lemma TypoFixedAwayDiagonal()
    ensures TypoFixedAway((0, 3), (2, 2)) == 1
    ensures IntendedAwayFromOther((0, 3), Some((2, 2))) == 2
  {
  }

  /** The evidently intended StartAwayFromOtherWorker: the king-move distance
      to the other worker, 0 while there is none. */
  function IntendedAwayFromOther(s: Coord, other: Option<Coord>): (r: int)
    requires Small(s) && (other.Some? ==> Small(other.value))
    ensures other == None ==> r == 0
    ensures other.Some? ==> r == Chebyshev(s, other.value)
    ensures other.Some? ==> (r == 0 <==> s == other.value)
  {
    match other
    case None => 0
    case Some(ow) => DistanceI8Exact(ow, s); DistanceI8(ow, s)
  }
}
