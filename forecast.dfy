/**
 * Forecast gate: reduce the aurora-probability grid to one percentage for
 * the Fairbanks area (aurora.py, `get_aurora_probability`).
 *
 * The HTTP fetch and the JSON decoding are outside the model: the grid
 * arrives as the sequence of `[x, y, p]` triples of its `coordinates` array.
 */
module Forecast {

  /** One `[x, y, p]` triple of the grid: longitude, latitude, probability. */
  datatype GridCell = GridCell(x: int, y: int, probability: int)

  const MinX := 211
  const MaxX := 213
  const MinY := 64
  const MaxY := 66

  /** The box around Fairbanks; all four bounds are inclusive, so on the
      integer grid it is the 3x3 block of points the source comments on. */
  function InFairbanksBox(c: GridCell): (r: bool)
    ensures r <==> c.x in {211, 212, 213} && c.y in {64, 65, 66}
  {
    MinX <= c.x <= MaxX && MinY <= c.y <= MaxY
  }

  /** The list comprehension: the cells of `grid` inside the box, in order. */
  function FairbanksCells(grid: seq<GridCell>): (r: seq<GridCell>)
    ensures forall c :: c in r <==> c in grid && InFairbanksBox(c)
  {
    if grid == [] then []
    else (if InFairbanksBox(grid[0]) then [grid[0]] else []) + FairbanksCells(grid[1..])
  }

  /** The third element of every cell, in order: one value per cell, and a
      value occurs iff some cell carries it. */
  function Probabilities(cells: seq<GridCell>): (r: seq<int>)
    ensures |r| == |cells|
    ensures forall v :: v in r <==> exists c :: c in cells && c.probability == v
  {
    var r := seq(|cells|, i requires 0 <= i < |cells| => cells[i].probability);
    assert forall i :: 0 <= i < |cells| ==> r[i] == cells[i].probability;
    r
  }

  /** Python's `max` of a non-empty list. */
  function Max(s: seq<int>): (m: int)
    requires s != []
    ensures forall i :: 0 <= i < |s| ==> s[i] <= m
    ensures exists i :: 0 <= i < |s| && s[i] == m
  {
    if |s| == 1 then s[0]
    else
      var rest := Max(s[1..]);
      assert forall i :: 1 <= i < |s| ==> s[i] == s[1..][i - 1];
      if s[0] >= rest then s[0] else rest
  }

  /** `max(values, default=0)`: 0 for an empty list, otherwise an upper
      bound of the list that is one of its elements. */
  function MaxOrZero(s: seq<int>): (r: int)
    ensures s == [] ==> r == 0
    ensures forall v :: v in s ==> v <= r
    ensures s != [] ==> r in s
  {
    if s == [] then 0 else Max(s)
  }

  /** The probability the forecast gate reports for `grid`: 0 when no cell
      lies in the box; otherwise at least every in-box cell's value and equal
      to one of them. */
  function AuroraProbability(grid: seq<GridCell>): (p: int)
    ensures (forall c :: c in grid ==> !InFairbanksBox(c)) ==> p == 0
    ensures forall c :: c in grid && InFairbanksBox(c) ==> c.probability <= p
    ensures (exists c :: c in grid && InFairbanksBox(c)) ==>
      exists c :: c in grid && InFairbanksBox(c) && c.probability == p
  {
    var cells := FairbanksCells(grid);
    var ps := Probabilities(cells);
    assert cells != [] ==> cells[0] in cells;
    assert forall c :: c in cells ==> c.probability in ps;
    MaxOrZero(ps)
  }

  /** The gate takes the maximum, not the first in-box cell nor an average. */
  lemma MaximumNotFirstNorAverage()
    ensures AuroraProbability([GridCell(212, 65, 5), GridCell(300, 10, 90), GridCell(211, 66, 30)]) == 30
  {
  }

  /** The box is inclusive on all four sides. */
  lemma BoxBoundsInclusive()
    ensures InFairbanksBox(GridCell(211, 64, 0)) && InFairbanksBox(GridCell(213, 66, 0))
    ensures !InFairbanksBox(GridCell(210, 65, 0)) && !InFairbanksBox(GridCell(214, 65, 0))
    ensures !InFairbanksBox(GridCell(212, 63, 0)) && !InFairbanksBox(GridCell(212, 67, 0))
  {
  }
}
