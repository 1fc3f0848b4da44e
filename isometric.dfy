/**
 * Isometric projection between tile coordinates and screen coordinates
 * (src/render/isometric.ts). Coordinates are exact reals here; the source's
 * doubles are not modelled.
 */
module Isometric {

  /** The `iso` section of the balance configuration. */
  datatype IsoConfig = IsoConfig(tileWidth: real, tileHeight: real)

  datatype ScreenPoint = ScreenPoint(x: real, y: real)

  datatype TileCoord = TileCoord(tileX: int, tileY: int)

  /** Half the product of a tile coordinate combination and a tile dimension. */
  function HalfScaled(a: real, size: real): real
  {
    a * (size / 2.0)
  }

  /** `toScreen`: the diamond projection of a tile position. */
  function ToScreen(tileX: real, tileY: real, iso: IsoConfig): ScreenPoint
  {
    ScreenPoint(HalfScaled(tileX - tileY, iso.tileWidth), HalfScaled(tileX + tileY, iso.tileHeight))
  }

  /** The two diagonal coordinates that `toTile` floors. */
  function DiagonalU(screenX: real, screenY: real, iso: IsoConfig): real
    requires iso.tileWidth != 0.0 && iso.tileHeight != 0.0
  {
    (screenX / (iso.tileWidth / 2.0) + screenY / (iso.tileHeight / 2.0)) / 2.0
  }

  function DiagonalV(screenX: real, screenY: real, iso: IsoConfig): real
    requires iso.tileWidth != 0.0 && iso.tileHeight != 0.0
  {
    (screenY / (iso.tileHeight / 2.0) - screenX / (iso.tileWidth / 2.0)) / 2.0
  }

  /** `toTile`: the tile whose diamond contains a screen point, by flooring. */
  function ToTile(screenX: real, screenY: real, iso: IsoConfig): (t: TileCoord)
    requires iso.tileWidth != 0.0 && iso.tileHeight != 0.0
    ensures t.tileX as real <= DiagonalU(screenX, screenY, iso) < t.tileX as real + 1.0
    ensures t.tileY as real <= DiagonalV(screenX, screenY, iso) < t.tileY as real + 1.0
  {
    TileCoord(DiagonalU(screenX, screenY, iso).Floor, DiagonalV(screenX, screenY, iso).Floor)
  }

  /** Dividing a half-scaled value by the half size gives the value back. */
  lemma HalfScaledCancels(a: real, size: real)
    requires size != 0.0
    ensures HalfScaled(a, size) / (size / 2.0) == a
  {
    var h := size / 2.0;
    assert h != 0.0;
    assert HalfScaled(a, size) == a * h;
  }

  /** Converting a whole tile to the screen and back yields the same tile. */
  lemma ToTileInvertsToScreen(tileX: int, tileY: int, iso: IsoConfig)
    requires iso.tileWidth != 0.0 && iso.tileHeight != 0.0
    ensures var p := ToScreen(tileX as real, tileY as real, iso);
            ToTile(p.x, p.y, iso) == TileCoord(tileX, tileY)
  {
    var tx, ty := tileX as real, tileY as real;
    var p := ToScreen(tx, ty, iso);
    HalfScaledCancels(tx - ty, iso.tileWidth);
    HalfScaledCancels(tx + ty, iso.tileHeight);
    assert DiagonalU(p.x, p.y, iso) == tx;
    assert DiagonalV(p.x, p.y, iso) == ty;
  }

  /** Swapping the two tile coordinates mirrors the screen point about the vertical axis. */
  lemma SwapMirrorsScreenX(tileX: real, tileY: real, iso: IsoConfig)
    ensures ToScreen(tileY, tileX, iso).x == -ToScreen(tileX, tileY, iso).x
    ensures ToScreen(tileY, tileX, iso).y == ToScreen(tileX, tileY, iso).y
  {
    var h := iso.tileWidth / 2.0;
    assert (tileY - tileX) * h == -((tileX - tileY) * h);
  }
}
