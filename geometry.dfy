/** Window and daylighting geometry of the single-zone box
    building, derived from its width (x), length (y) and height (z). */
module Geometry {

  /** A window rectangle on a wall: [l0, l1] along the wall, [z0, z1] up it. */
  datatype Window = Window(l0: real, l1: real, z0: real, z1: real)

  /** getWindowCoordinates: the window centred on a wall lSurface long and
      zSurface high, scaled by alpha (the square root of the window-to-wall
      ratio) along both axes. Offsets are not clamped. */
  function WindowCoordinates(lSurface: real, zSurface: real, alpha: real): (w: Window)
    ensures w.l0 + w.l1 == lSurface && w.z0 + w.z1 == zSurface
    ensures w.l1 - w.l0 == alpha * lSurface && w.z1 - w.z0 == alpha * zSurface
  {
    var lWindow := alpha * lSurface;
    var zWindow := alpha * zSurface;
    var lOffset := (lSurface - lWindow) / 2.0;
    var zOffset := (zSurface - zWindow) / 2.0;
    Window(lOffset, lSurface - lOffset, zOffset, zSurface - zOffset)
  }

  /** With alpha the square root of wwr, the window covers wwr of the wall. */
  lemma WindowAreaIsWwr(lSurface: real, zSurface: real, wwr: real, alpha: real)
    requires 0.0 <= alpha && alpha * alpha == wwr
    ensures var w := WindowCoordinates(lSurface, zSurface, alpha);
      (w.l1 - w.l0) * (w.z1 - w.z0) == wwr * (lSurface * zSurface)
  {
    var w := WindowCoordinates(lSurface, zSurface, alpha);
    calc {
      (w.l1 - w.l0) * (w.z1 - w.z0);
      (alpha * lSurface) * (alpha * zSurface);
      (alpha * alpha) * (lSurface * zSurface);
    }
  }

  /** A ratio above one gives a window taller than the wall: the lower edge
      falls below the floor, since nothing clamps it. */
  lemma OversizedWindowNotClamped(lSurface: real, zSurface: real, wwr: real, alpha: real)
    requires 0.0 <= alpha && alpha * alpha == wwr && wwr > 1.0 && zSurface > 0.0
    ensures WindowCoordinates(lSurface, zSurface, alpha).z0 < 0.0
  {
    if alpha <= 1.0 {
      MulMonotone(alpha, 1.0, alpha);
      assert false;
    }
    MulMonotone(1.0, alpha, zSurface);
  }

  lemma MulMonotone(a: real, b: real, c: real)
    requires a <= b && 0.0 <= c
    ensures a * c <= b * c
  {
  }

  /** The default width of the casement vent along the window's vertical edge. */
  const OpeningWidth: real := 0.15

  /** One orientation: its window and the area of its operable opening. */
  datatype Facade = Facade(window: Window, openingArea: real)

  /** The window on one wall and its opening area, (z1 - z0) * openingWidth. */
  function FacadeOf(wall: real, height: real, alpha: real): (f: Facade)
    ensures f.window.l0 + f.window.l1 == wall && f.window.z0 + f.window.z1 == height
    ensures f.openingArea == alpha * height * OpeningWidth
  {
    var w := WindowCoordinates(wall, height, alpha);
    Facade(w, (w.z1 - w.z0) * OpeningWidth)
  }

  datatype Windows = Windows(north: Facade, east: Facade, south: Facade, west: Facade)

  /** windowGeometry's coordinates: north and south walls are width by height,
      east and west walls are length by height. */
  function WindowLayout(width: real, length: real, height: real, alpha: real): (ws: Windows)
    ensures ws.north == ws.south && ws.east == ws.west
    ensures ws.north.window.l0 + ws.north.window.l1 == width
    ensures ws.east.window.l0 + ws.east.window.l1 == length
    ensures ws.north.openingArea == ws.east.openingArea == alpha * height * OpeningWidth
    ensures ws.north.window.z0 == ws.east.window.z0 && ws.north.window.z1 == ws.east.window.z1
  {
    Windows(FacadeOf(width, height, alpha), FacadeOf(length, height, alpha),
            FacadeOf(width, height, alpha), FacadeOf(length, height, alpha))
  }

  /** daylightingReferencePoint: the centre of the plan. */
  function DaylightPoint(length: real, width: real): (p: (real, real))
    ensures p.0 + p.0 == width && p.1 + p.1 == length
  {
    (width / 2.0, length / 2.0)
  }

  /** The worked example: a plan 5 wide and 8 long. */
  lemma ExampleDaylightPoint()
    ensures DaylightPoint(8.0, 5.0) == (2.5, 4.0)
  {
  }
}
