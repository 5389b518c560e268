/** The Qblox time grid: source times are integer nanoseconds, the hardware grid
    has a line every four of them.  Times are integers here, so the division by
    the interval is exact. */
module Timegrid {

  /** Nanoseconds between two grid lines (4e-9 seconds). */
  const GRID_NS := 4

  /** Python's `round(ns / 4)`: nearest grid line, a tie going to the even one.
      The two clauses determine the result. */
  function RoundToTick(ns: int): (tick: int)
    ensures -GRID_NS <= 2 * (GRID_NS * tick - ns) <= GRID_NS
    ensures 2 * (GRID_NS * tick - ns) in {-GRID_NS, GRID_NS} ==> tick % 2 == 0
  {
    var floor, rest := ns / GRID_NS, ns % GRID_NS;
    if 2 * rest < GRID_NS then floor
    else if 2 * rest > GRID_NS then floor + 1
    else if floor % 2 == 0 then floor else floor + 1
  }

  /** The on-grid time, in nanoseconds, that a source time is moved to. */
  function MapToTimegrid(ns: int): int {
    RoundToTick(ns) * GRID_NS
  }

  /** `floor(t / interval + 1/2)`: the tick of a time, meant for on-grid times. */
  function ToTick(time: int): int {
    (2 * time + GRID_NS) / (2 * GRID_NS)
  }

  /** Reading the tick back from a mapped time loses nothing. */
  lemma ToTickExact(ns: int)
    ensures ToTick(MapToTimegrid(ns)) == RoundToTick(ns)
    ensures MapToTimegrid(ns) % GRID_NS == 0
  {
    var k := RoundToTick(ns);
    assert 2 * (k * GRID_NS) + GRID_NS == 8 * k + 4;
  }

  /** Rounding never swaps two times. */
  lemma RoundMonotone(a: int, b: int)
    requires a <= b
    ensures RoundToTick(a) <= RoundToTick(b)
  {
  }

  /** Start and duration are rounded separately; together they overshoot the
      start of what follows by one tick at the very most. */
  lemma OvershootAtMostOneTick(start: int, duration: int, next: int)
    requires start + duration <= next
    ensures RoundToTick(start) + RoundToTick(duration) <= RoundToTick(next) + 1
  {
  }

  /** ... and that tick is really overshot: [3, 9) is followed by 9 in the source,
      but is mapped to ticks [1, 3) followed by tick 2. */
  lemma OvershootHappens()
    ensures 3 + 6 <= 9 && RoundToTick(3) + RoundToTick(6) == RoundToTick(9) + 1
  {
  }
}
