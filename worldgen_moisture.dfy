/**
 * The moisture stage of the terrain-map generator.  From every land cell
 * a cursor follows the wind for at most MAX_MOISTURE_TRAVEL steps over
 * the wrapped grid, accumulating the elevation it passes, and stops as
 * soon as it reaches sea level.  Drier cells are the ones whose trace
 * crossed more high ground.
 */
module WorldGenMoisture {
  import opened WorldGen

  const MAX_MOISTURE_TRAVEL: nat := 100
  const MOISTURE_ELEVATION_PENALTY := 1

  /** The elevation grid and the wind grid cover the same cells. */
  predicate SameShape(elevation: array2<byte>, wind: array2<real>) {
    elevation.Length0 == wind.Length0 && elevation.Length1 == wind.Length1
  }

  /**
   * One step of the cursor on a `rows` x `cols` torus: wind above 0.5
   * moves it one column left, wind below -0.5 one column right, anything
   * else one row down; both coordinates then wrap with a non-negative
   * modulo.
   */
  function Step(w: real, x: int, y: int, rows: nat, cols: nat): (p: (int, int))
    requires rows > 0 && cols > 0
    ensures 0 <= p.0 < rows && 0 <= p.1 < cols
  {
    if w > 0.5 then (x % rows, (y - 1) % cols)
    else if w < -0.5 then (x % rows, (y + 1) % cols)
    else ((x + 1) % rows, y % cols)
  }

  /** A step against the wind undoes a step with it, even across the wrapped edge. */
  lemma StepBack(x: int, y: int, rows: nat, cols: nat)
    requires 0 <= x < rows && 0 <= y < cols
    ensures var p := Step(1.0, x, y, rows, cols); Step(-1.0, p.0, p.1, rows, cols) == (x, y)
  {
    assert x % rows == x;
    if y == 0 {
      assert (y - 1) % cols == cols - 1;
      assert cols % cols == 0;
    } else {
      assert (y - 1) % cols == y - 1;
      assert y % cols == y;
    }
  }

  /**
   * What the walk from (x, y) adds to the accumulator with `steps` steps
   * left: the elevation under the cursor, and, unless the step lands on
   * sea level, the rest of the walk from there.
   */
  function Trace(elevation: array2<byte>, wind: array2<real>, x: int, y: int, steps: nat): (t: int)
    reads elevation, wind
    requires SameShape(elevation, wind)
    requires 0 <= x < elevation.Length0 && 0 <= y < elevation.Length1
    ensures 0 <= t <= 255 * steps
    ensures steps > 0 ==> elevation[x, y] <= t
    decreases steps
  {
    if steps == 0 then 0
    else
      var e := MOISTURE_ELEVATION_PENALTY * elevation[x, y];
      var p := Step(wind[x, y], x, y, elevation.Length0, elevation.Length1);
      if elevation[p.0, p.1] < 1 then e
      else e + Trace(elevation, wind, p.0, p.1, steps - 1)
  }

  /** A larger travel budget never accumulates less. */
  lemma {:induction false} TraceGrows(elevation: array2<byte>, wind: array2<real>, x: int, y: int, steps: nat)
    requires SameShape(elevation, wind)
    requires 0 <= x < elevation.Length0 && 0 <= y < elevation.Length1
    ensures Trace(elevation, wind, x, y, steps) <= Trace(elevation, wind, x, y, steps + 1)
    decreases steps
  {
    if steps > 0 {
      var p := Step(wind[x, y], x, y, elevation.Length0, elevation.Length1);
      if elevation[p.0, p.1] >= 1 {
        TraceGrows(elevation, wind, p.0, p.1, steps - 1);
      }
    }
  }

  /** The value the moisture grid holds for cell (i, j) before normalisation. */
  function MoistureAt(elevation: array2<byte>, wind: array2<real>, i: int, j: int): (m: int)
    reads elevation, wind
    requires SameShape(elevation, wind)
    requires 0 <= i < elevation.Length0 && 0 <= j < elevation.Length1
  {
    if elevation[i, j] > 0 then 1 + Trace(elevation, wind, i, j, MAX_MOISTURE_TRAVEL) else 0
  }

  /** Sea cells keep 0; a land cell holds between 1 + its own elevation and 1 + 100 * 255. */
  lemma MoistureBounds(elevation: array2<byte>, wind: array2<real>, i: int, j: int)
    requires SameShape(elevation, wind)
    requires 0 <= i < elevation.Length0 && 0 <= j < elevation.Length1
    ensures MoistureAt(elevation, wind, i, j) == 0 <==> elevation[i, j] == 0
    ensures elevation[i, j] > 0 ==>
      1 + elevation[i, j] <= MoistureAt(elevation, wind, i, j) <= 1 + 255 * MAX_MOISTURE_TRAVEL
  {
  }

  /** A land cell whose first step reaches the sea accumulates only its own elevation. */
  lemma CoastalCell(elevation: array2<byte>, wind: array2<real>, i: int, j: int)
    requires SameShape(elevation, wind)
    requires 0 <= i < elevation.Length0 && 0 <= j < elevation.Length1
    requires elevation[i, j] > 0
    requires var p := Step(wind[i, j], i, j, elevation.Length0, elevation.Length1); elevation[p.0, p.1] == 0
    ensures MoistureAt(elevation, wind, i, j) == 1 + elevation[i, j]
  {
  }

  /** The trace loop for one land cell: returns 1 plus what the walk accumulates. */
  method TraceMoisture(elevation: array2<byte>, wind: array2<real>, i: int, j: int) returns (d: int)
    requires SameShape(elevation, wind)
    requires 0 <= i < elevation.Length0 && 0 <= j < elevation.Length1
    ensures d == 1 + Trace(elevation, wind, i, j, MAX_MOISTURE_TRAVEL)
  {
    var rows, cols := elevation.Length0, elevation.Length1;
    d := 1;
    var y := j;
    var x := i;
    for dist := 0 to MAX_MOISTURE_TRAVEL
      invariant 0 <= x < rows && 0 <= y < cols
      invariant d + Trace(elevation, wind, x, y, MAX_MOISTURE_TRAVEL - dist)
        == 1 + Trace(elevation, wind, i, j, MAX_MOISTURE_TRAVEL)
    {
      ghost var p := Step(wind[x, y], x, y, rows, cols);
      d := d + MOISTURE_ELEVATION_PENALTY * elevation[x, y];
      if wind[x, y] > 0.5 {
        y := y - 1;
      } else if wind[x, y] < -0.5 {
        y := y + 1;
      } else {
        x := x + 1;
      }
      x := x % rows;
      y := y % cols;
      assert (x, y) == p;
      if elevation[x, y] < 1 {
        break;
      }
    }
  }

  /** Writes the moisture of every cell of row `i`. */
  method MoistureRow(moisture: array2<int>, elevation: array2<byte>, wind: array2<real>, i: int)
    requires SameShape(elevation, wind)
    requires moisture.Length0 == elevation.Length0 && moisture.Length1 == elevation.Length1
    requires 0 <= i < moisture.Length0
    requires forall c :: 0 <= c < moisture.Length1 ==> moisture[i, c] == 0
    modifies moisture
    ensures forall c :: 0 <= c < moisture.Length1 ==> moisture[i, c] == MoistureAt(elevation, wind, i, c)
    ensures forall r, c :: 0 <= r < moisture.Length0 && r != i && 0 <= c < moisture.Length1 ==>
      moisture[r, c] == old(moisture[r, c])
  {
    for j := 0 to moisture.Length1
      invariant forall c :: 0 <= c < j ==> moisture[i, c] == MoistureAt(elevation, wind, i, c)
      invariant forall c :: j <= c < moisture.Length1 ==> moisture[i, c] == 0
      invariant forall r, c :: 0 <= r < moisture.Length0 && r != i && 0 <= c < moisture.Length1 ==>
        moisture[r, c] == old(moisture[r, c])
    {
      if elevation[i, j] > 0 {
        var d := TraceMoisture(elevation, wind, i, j);
        moisture[i, j] := d;
      }
    }
  }

  /** The moisture grid: zero on the sea, the cell's trace on land. */
  method GenerateMoisture(elevation: array2<byte>, wind: array2<real>) returns (moisture: array2<int>)
    requires SameShape(elevation, wind)
    ensures fresh(moisture)
    ensures moisture.Length0 == elevation.Length0 && moisture.Length1 == elevation.Length1
    ensures forall i, j :: 0 <= i < moisture.Length0 && 0 <= j < moisture.Length1 ==>
      moisture[i, j] == MoistureAt(elevation, wind, i, j)
  {
    moisture := new int[elevation.Length0, elevation.Length1]((_, _) => 0);
    for i := 0 to moisture.Length0
      invariant forall r, c :: 0 <= r < i && 0 <= c < moisture.Length1 ==>
        moisture[r, c] == MoistureAt(elevation, wind, r, c)
      invariant forall r, c :: i <= r < moisture.Length0 && 0 <= c < moisture.Length1 ==>
        moisture[r, c] == 0
    {
      MoistureRow(moisture, elevation, wind, i);
    }
  }
}
