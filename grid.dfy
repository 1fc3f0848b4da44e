/**
 * The tile grid of src/ecs/world.ts: construction, `x,y -> index` mapping and
 * bounds-checked lookup.
 */
module Grid {

  import opened Wrappers

  datatype TileType = Plain | Road | Town

  /**
   * One tile. `corruption` and `corruptProgress` are exact reals; the source
   * keeps corruption in 0..tileMax and progress in 0..1.
   */
  datatype Tile = Tile(
    kind: TileType,
    corruption: real,
    corrupted: bool,
    corruptProgress: real,
    corrupting: bool)

  /** The tile `createGrid` fills the grid with. */
  const PlainTile: Tile := Tile(Plain, 0.0, false, 0.0, false)

  /** The number of cells `createGrid` makes: none when either side is not positive. */
  function CellCount(width: int, height: int): int
  {
    if width <= 0 || height <= 0 then 0 else width * height
  }

  datatype GridState = GridState(width: int, height: int, tiles: seq<Tile>)
  {
    /** The tile array holds one tile per cell, row by row. */
    ghost predicate Valid()
    {
      |tiles| == CellCount(width, height)
    }

    predicate InBounds(x: int, y: int)
    {
      0 <= x < width && 0 <= y < height
    }
  }

  /** `createGrid`: rows of plain, uncorrupted tiles, pushed row by row. */
  method CreateGrid(width: int, height: int) returns (g: GridState)
    ensures g.width == width && g.height == height
    ensures |g.tiles| == CellCount(width, height)
    ensures g.Valid()
    ensures forall i :: 0 <= i < |g.tiles| ==> g.tiles[i] == PlainTile
  {
    var tiles: seq<Tile> := [];
    var w := if width < 0 then 0 else width;
    var y := 0;
    while y < height
      invariant 0 <= y <= (if height < 0 then 0 else height)
      invariant |tiles| == y * w
      invariant forall i :: 0 <= i < |tiles| ==> tiles[i] == PlainTile
    {
      var x := 0;
      while x < width
        invariant 0 <= x <= w
        invariant |tiles| == y * w + x
        invariant forall i :: 0 <= i < |tiles| ==> tiles[i] == PlainTile
      {
        tiles := tiles + [PlainTile];
        x := x + 1;
      }
      y := y + 1;
    }
    g := GridState(width, height, tiles);
  }

  /** `gridIndex`: the row-major index `y * width + x`. */
  function GridIndex(g: GridState, x: int, y: int): int
  {
    y * g.width + x
  }

  /** The index of an in-bounds cell lies in the tile array and determines the cell. */
  lemma GridIndexInRange(g: GridState, x: int, y: int)
    requires g.InBounds(x, y)
    ensures 0 <= GridIndex(g, x, y) < g.width * g.height
    ensures GridIndex(g, x, y) % g.width == x
    ensures GridIndex(g, x, y) / g.width == y
  {
    var w := g.width;
    assert y * w <= (g.height - 1) * w by {
      MulMonotone(y, g.height - 1, w);
    }
    assert (g.height - 1) * w + w == g.height * w;
    DivModOfRowMajor(x, y, w);
  }

  lemma MulMonotone(a: int, b: int, w: int)
    requires a <= b && 0 <= w
    ensures a * w <= b * w
  {
    assert b * w - a * w == (b - a) * w;
  }

  /** `(y * w + x) / w == y` and `(y * w + x) % w == x` for `0 <= x < w`. */
  lemma DivModOfRowMajor(x: int, y: int, w: int)
    requires 0 <= x < w
    ensures (y * w + x) / w == y
    ensures (y * w + x) % w == x
  {
    var n := y * w + x;
    var q, r := n / w, n % w;
    assert n == q * w + r;
    assert (q - y) * w == x - r;
    if q > y {
      MulMonotone(1, q - y, w);
    } else if q < y {
      MulMonotone(1, y - q, w);
    }
  }

  /** Distinct in-bounds cells have distinct indices. */
  lemma GridIndexInjective(g: GridState, x1: int, y1: int, x2: int, y2: int)
    requires g.InBounds(x1, y1) && g.InBounds(x2, y2)
    requires GridIndex(g, x1, y1) == GridIndex(g, x2, y2)
    ensures x1 == x2 && y1 == y2
  {
    GridIndexInRange(g, x1, y1);
    GridIndexInRange(g, x2, y2);
  }

  /** `getTile`: the tile at a cell, or nothing outside the grid. */
  function GetTile(g: GridState, x: int, y: int): (r: Option<Tile>)
    requires g.Valid()
    ensures r.None? <==> !g.InBounds(x, y)
    ensures r.Some? ==> 0 <= GridIndex(g, x, y) < |g.tiles| && r.value == g.tiles[GridIndex(g, x, y)]
  {
    if x < 0 || y < 0 || x >= g.width || y >= g.height then None
    else
      GridIndexInRange(g, x, y);
      Some(g.tiles[GridIndex(g, x, y)])
  }

  /** A freshly created grid is valid and every lookup inside it finds a plain tile. */
  lemma CreatedGridLookup(g: GridState, x: int, y: int)
    requires |g.tiles| == CellCount(g.width, g.height)
    requires forall i :: 0 <= i < |g.tiles| ==> g.tiles[i] == PlainTile
    requires g.InBounds(x, y)
    ensures g.Valid() && GetTile(g, x, y) == Some(PlainTile)
  {
    GridIndexInRange(g, x, y);
  }

  /** The grid with one in-bounds tile replaced, as the source's in-place tile edits leave it. */
  function SetTile(g: GridState, x: int, y: int, t: Tile): (r: GridState)
    requires g.Valid() && g.InBounds(x, y)
    ensures r.Valid() && r.width == g.width && r.height == g.height
    ensures GetTile(r, x, y) == Some(t)
  {
    GridIndexInRange(g, x, y);
    g.(tiles := g.tiles[GridIndex(g, x, y) := t])
  }

  /** Replacing one tile leaves every other cell's lookup as it was. */
  lemma SetTileFrame(g: GridState, x: int, y: int, t: Tile)
    requires g.Valid() && g.InBounds(x, y)
    ensures forall x', y' :: !(x' == x && y' == y) ==> GetTile(SetTile(g, x, y, t), x', y') == GetTile(g, x', y')
  {
    forall x', y' | !(x' == x && y' == y)
      ensures GetTile(SetTile(g, x, y, t), x', y') == GetTile(g, x', y')
    {
      if g.InBounds(x', y') {
        if GridIndex(g, x', y') == GridIndex(g, x, y) {
          GridIndexInjective(g, x', y', x, y);
        }
      }
    }
  }
}
