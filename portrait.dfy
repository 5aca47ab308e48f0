/** The procedural portrait's region classifier (js/portrait.js).
    A grid cell (x, y) is classified by a first-match chain of geometric tests
    (hair ellipse, face ellipse with its eye/nose/mouth/beard sub-regions, neck
    band, shirt trapezoid with a collar notch) into one of nine region codes;
    `GetChar` turns a region code into a glyph. Coordinates are exact reals. */
module Portrait {

  // ---------------------------------------------------------------------------
  // Grid dimensions and region codes
  // ---------------------------------------------------------------------------

  const COLS: int := 50
  const ROWS: int := 65

  const EMPTY: int := 0
  const LINE: int := 1
  const FACE: int := 2
  const LEFT_EYE: int := 3
  const RIGHT_EYE: int := 4
  const MOUTH: int := 5
  const BEARD: int := 6
  const SHIRT: int := 7
  const HAIR: int := 8

  /** Vertical axis of the portrait: cols / 2. */
  const CENTER_X: real := COLS as real / 2.0

  // ---------------------------------------------------------------------------
  // Geometry constants
  // ---------------------------------------------------------------------------

  /** Ring thickness `onEllipseEdge` uses when a caller gives none. */
  const DEFAULT_EDGE: real := 1.5

  const HAIR_TOP: int := 3
  const HAIR_BOTTOM: int := 18
  const HAIR_RX: real := 18.0
  /** Rows above this one have a narrower hair ellipse. */
  const HAIR_TAPER_ROW: int := 8
  const HAIR_TAPER: real := 0.5
  const HAIR_RY: real := 16.0
  const HAIR_CY: real := 18.0
  const HAIR_EDGE: real := 1.2

  const FACE_RX: real := 16.0
  const FACE_RY: real := 22.0
  const FACE_CY: real := 28.0
  const FACE_EDGE: real := 1.3

  /** The eyes sit EYE_OFFSET columns left and right of CENTER_X. */
  const EYE_OFFSET: real := 6.0
  const EYE_Y: real := 24.0
  const EYE_RX: real := 3.0
  const EYE_RY: real := 2.0
  const EYE_EDGE: real := 0.8

  const NOSE_HALF_WIDTH: real := 1.0
  const NOSE_TOP: int := 27
  const NOSE_BOTTOM: int := 32

  const MOUTH_Y: real := 37.0
  const MOUTH_RX: real := 5.0
  const MOUTH_RY: real := 2.0
  const MOUTH_EDGE: real := 0.7

  const BEARD_TOP: int := 40
  const BEARD_BOTTOM: int := 50

  const NECK_TOP: int := 48
  const NECK_HALF_WIDTH: real := 5.0
  const SHIRT_TOP: int := 52
  const SHIRT_BOTTOM: int := 64
  const SHIRT_BASE_WIDTH: real := 20.0
  const SHIRT_SLOPE: real := 1.5
  const COLLAR_SLOPE: real := 0.8
  /** The collar notch only exists above this row. */
  const COLLAR_BOTTOM: int := 58
  const SHIRT_EDGE: real := 1.2
  /** Rows from here down are the shirt's bottom outline. */
  const SHIRT_HEM: int := 63

  // ---------------------------------------------------------------------------
  // Real arithmetic helpers
  // ---------------------------------------------------------------------------

  function Sq(a: real): (r: real)
    ensures r >= 0.0
  {
    a * a
  }

  function Abs(a: real): (r: real)
    ensures r >= 0.0 && (r == a || r == -a)
  {
    if a < 0.0 then -a else a
  }

  lemma MulPos(a: real, b: real)
    requires a > 0.0 && b > 0.0
    ensures a * b > 0.0
  {
  }

  /** Squaring is strictly increasing on the non-negative reals. */
  lemma SqStrictMono(b: real, c: real)
    requires 0.0 <= b < c
    ensures b * b < c * c
  {
    MulPos(c - b, c + b);
  }

  /** A square no larger than b * b bounds its root by b. */
  lemma SqBound(a: real, b: real)
    requires b >= 0.0 && Sq(a) <= Sq(b)
    ensures -b <= a <= b
  {
    if a > b {
      SqStrictMono(b, a);
    } else if a < -b {
      SqStrictMono(b, -a);
    }
  }

  /** If |d / r| <= 1 for a positive r, then |d| <= r. */
  lemma QuotientBound(d: real, r: real)
    requires r > 0.0 && -1.0 <= d / r <= 1.0
    ensures -r <= d <= r
  {
    if d > r {
      MulPos(d - r, 1.0 / r);
    } else if d < -r {
      MulPos(-r - d, 1.0 / r);
    }
  }

  // ---------------------------------------------------------------------------
  // Ellipse tests
  // ---------------------------------------------------------------------------

  /** Normalised squared distance of (x, y) from the centre (cx, cy) of an
      ellipse with radii rx, ry: at most 1 exactly inside or on the ellipse. */
  function NormSq(x: real, y: real, cx: real, cy: real, rx: real, ry: real): real
    requires rx > 0.0 && ry > 0.0
  {
    Sq((x - cx) / rx) + Sq((y - cy) / ry)
  }

  predicate InEllipse(x: real, y: real, cx: real, cy: real, rx: real, ry: real)
    requires rx > 0.0 && ry > 0.0
  {
    NormSq(x, y, cx, cy, rx, ry) <= 1.0
  }

  /** The outline ring: inside the ellipse, and no nearer the centre than the
      ellipse shrunk by `thickness` along the x radius. */
  predicate OnEllipseEdge(x: real, y: real, cx: real, cy: real, rx: real, ry: real,
                          thickness: real := DEFAULT_EDGE)
    requires rx > 0.0 && ry > 0.0
  {
    NormSq(x, y, cx, cy, rx, ry) <= 1.0 &&
    NormSq(x, y, cx, cy, rx, ry) >= Sq((rx - thickness) / rx)
  }

  /** The edge ring lies inside the ellipse, and a ring thinner than the
      horizontal radius leaves the centre off the edge. */
  lemma EdgeRing(x: real, y: real, cx: real, cy: real, rx: real, ry: real, thickness: real)
    requires rx > 0.0 && ry > 0.0
    ensures OnEllipseEdge(x, y, cx, cy, rx, ry, thickness) ==> InEllipse(x, y, cx, cy, rx, ry)
    ensures 0.0 < thickness < rx ==> !OnEllipseEdge(cx, cy, cx, cy, rx, ry, thickness)
  {
    if 0.0 < thickness < rx {
      var q := (rx - thickness) / rx;
      MulPos(rx - thickness, 1.0 / rx);
      assert q == (rx - thickness) * (1.0 / rx);
      MulPos(q, q);
      assert NormSq(cx, cy, cx, cy, rx, ry) == 0.0;
    }
  }

  /** Every point of an ellipse lies in its bounding box. */
  lemma EllipseBox(x: real, y: real, cx: real, cy: real, rx: real, ry: real)
    requires rx > 0.0 && ry > 0.0
    requires InEllipse(x, y, cx, cy, rx, ry)
    ensures cx - rx <= x <= cx + rx
    ensures cy - ry <= y <= cy + ry
  {
    SqBound((x - cx) / rx, 1.0);
    QuotientBound(x - cx, rx);
    SqBound((y - cy) / ry, 1.0);
    QuotientBound(y - cy, ry);
  }

  /** Reflecting a point's horizontal offset from the centre changes neither
      test: the tests only see the offset squared. */
  lemma EllipseMirror(x1: real, cx1: real, x2: real, cx2: real, y: real,
                                         cy: real, rx: real, ry: real, thickness: real)
    requires rx > 0.0 && ry > 0.0
    requires x1 - cx1 == cx2 - x2
    ensures InEllipse(x1, y, cx1, cy, rx, ry) == InEllipse(x2, y, cx2, cy, rx, ry)
    ensures OnEllipseEdge(x1, y, cx1, cy, rx, ry, thickness) ==
            OnEllipseEdge(x2, y, cx2, cy, rx, ry, thickness)
  {
    assert (x1 - cx1) / rx == -((x2 - cx2) / rx);
  }

  // ---------------------------------------------------------------------------
  // Region classifier
  // ---------------------------------------------------------------------------

  /** Horizontal hair radius: 18, narrowed by half a column per row above row 8. */
  function HairRx(y: int): (r: real)
    requires HAIR_TOP <= y <= HAIR_BOTTOM
    ensures 15.5 <= r <= HAIR_RX
    ensures y >= HAIR_TAPER_ROW ==> r == HAIR_RX
  {
    HAIR_RX - (if y < HAIR_TAPER_ROW then (HAIR_TAPER_ROW - y) as real * HAIR_TAPER else 0.0)
  }

  predicate InHair(x: int, y: int)
  {
    HAIR_TOP <= y <= HAIR_BOTTOM &&
    InEllipse(x as real, y as real, CENTER_X, HAIR_CY, HairRx(y), HAIR_RY)
  }

  predicate InFaceOval(x: int, y: int)
  {
    InEllipse(x as real, y as real, CENTER_X, FACE_CY, FACE_RX, FACE_RY)
  }

  /** Half the width of the shirt trapezoid in row y (it widens by 1.5 per row). */
  function ShirtHalfWidth(y: int): real
  {
    (SHIRT_BASE_WIDTH + (y - SHIRT_TOP) as real * SHIRT_SLOPE) / 2.0
  }

  /** Half the width of the collar notch in row y. */
  function CollarWidth(y: int): real
  {
    (y - SHIRT_TOP) as real * COLLAR_SLOPE
  }

  predicate InShirtTrapezoid(x: int, y: int)
  {
    CENTER_X - ShirtHalfWidth(y) <= x as real <= CENTER_X + ShirtHalfWidth(y)
  }

  /** Classification of a cell inside the face oval (its sub-regions). */
  function FaceCellType(x: int, y: int): (r: int)
    ensures r in {LINE, FACE, LEFT_EYE, RIGHT_EYE, MOUTH, BEARD}
    ensures r == BEARD ==> BEARD_TOP <= y <= BEARD_BOTTOM
  {
    var px, py := x as real, y as real;
    if OnEllipseEdge(px, py, CENTER_X, FACE_CY, FACE_RX, FACE_RY, FACE_EDGE) then LINE
    else if InEllipse(px, py, CENTER_X - EYE_OFFSET, EYE_Y, EYE_RX, EYE_RY) then
      if OnEllipseEdge(px, py, CENTER_X - EYE_OFFSET, EYE_Y, EYE_RX, EYE_RY, EYE_EDGE) then LINE
      else LEFT_EYE
    else if InEllipse(px, py, CENTER_X + EYE_OFFSET, EYE_Y, EYE_RX, EYE_RY) then
      if OnEllipseEdge(px, py, CENTER_X + EYE_OFFSET, EYE_Y, EYE_RX, EYE_RY, EYE_EDGE) then LINE
      else RIGHT_EYE
    else if CENTER_X - NOSE_HALF_WIDTH <= px <= CENTER_X + NOSE_HALF_WIDTH &&
            NOSE_TOP <= y <= NOSE_BOTTOM then
      if px == CENTER_X - NOSE_HALF_WIDTH || px == CENTER_X + NOSE_HALF_WIDTH then LINE
      else FACE
    else if InEllipse(px, py, CENTER_X, MOUTH_Y, MOUTH_RX, MOUTH_RY) then
      if OnEllipseEdge(px, py, CENTER_X, MOUTH_Y, MOUTH_RX, MOUTH_RY, MOUTH_EDGE) then LINE
      else MOUTH
    else if BEARD_TOP <= y <= BEARD_BOTTOM then BEARD
    else FACE
  }

  /** Classification of a cell in rows 48..64 outside the face oval: the neck
      band, then the shirt trapezoid with its collar notch. */
  function BodyCellType(x: int, y: int): (r: int)
    ensures r in {EMPTY, LINE, FACE, SHIRT}
    ensures r == SHIRT ==> SHIRT_TOP <= y < SHIRT_HEM
  {
    var px := x as real;
    if y < SHIRT_TOP && CENTER_X - NECK_HALF_WIDTH <= px <= CENTER_X + NECK_HALF_WIDTH then
      if px == CENTER_X - NECK_HALF_WIDTH || px == CENTER_X + NECK_HALF_WIDTH then LINE
      else FACE
    else if y >= SHIRT_TOP && InShirtTrapezoid(x, y) then
      var halfWidth, collarWidth := ShirtHalfWidth(y), CollarWidth(y);
      if CENTER_X - collarWidth <= px <= CENTER_X + collarWidth && y < COLLAR_BOTTOM then
        if Abs(px - CENTER_X) >= collarWidth - 1.0 then LINE else EMPTY
      else if Abs(px - (CENTER_X - halfWidth)) < SHIRT_EDGE ||
              Abs(px - (CENTER_X + halfWidth)) < SHIRT_EDGE ||
              y >= SHIRT_HEM then LINE
      else SHIRT
    else EMPTY
  }

  /** The region code of cell (x, y): the first test that matches wins. */
  function GetCellType(x: int, y: int): (r: int)
    ensures EMPTY <= r <= HAIR
    ensures r == HAIR ==> HAIR_TOP <= y <= HAIR_BOTTOM
    ensures r == BEARD ==> BEARD_TOP <= y <= BEARD_BOTTOM
    ensures r == SHIRT ==> SHIRT_TOP <= y < SHIRT_HEM
  {
    var px, py := x as real, y as real;
    if InHair(x, y) then
      if OnEllipseEdge(px, py, CENTER_X, HAIR_CY, HairRx(y), HAIR_RY, HAIR_EDGE) then LINE
      else HAIR
    else if InFaceOval(x, y) then FaceCellType(x, y)
    else if NECK_TOP <= y <= SHIRT_BOTTOM then BodyCellType(x, y)
    else EMPTY
  }

  // ---------------------------------------------------------------------------
  // Properties of the classifier
  // ---------------------------------------------------------------------------

  /** The face oval spans rows 6..50. */
  lemma FaceOvalRows(x: int, y: int)
    requires InFaceOval(x, y)
    ensures FACE_CY - FACE_RY <= y as real <= FACE_CY + FACE_RY
  {
    EllipseBox(x as real, y as real, CENTER_X, FACE_CY, FACE_RX, FACE_RY);
  }

  /** Rows above the hair band are empty in every column: the hair test needs
      y >= 3, the face oval y >= 6 and the neck and shirt y >= 48. */
  lemma TopRowsEmpty(x: int, y: int)
    requires y < HAIR_TOP
    ensures GetCellType(x, y) == EMPTY
  {
    if InFaceOval(x, y) {
      FaceOvalRows(x, y);
    }
  }

  /** Every cell of the trapezoid in the last two rows is outline. */
  lemma HemIsLine(x: int, y: int)
    requires SHIRT_HEM <= y <= SHIRT_BOTTOM && InShirtTrapezoid(x, y)
    ensures GetCellType(x, y) == LINE
  {
    if InFaceOval(x, y) {
      FaceOvalRows(x, y);
    }
  }

  /** No cell is inside both eye ellipses. */
  lemma EyesDisjoint(x: int, y: int)
    ensures !(InEllipse(x as real, y as real, CENTER_X - EYE_OFFSET, EYE_Y, EYE_RX, EYE_RY) &&
              InEllipse(x as real, y as real, CENTER_X + EYE_OFFSET, EYE_Y, EYE_RX, EYE_RY))
  {
    if InEllipse(x as real, y as real, CENTER_X - EYE_OFFSET, EYE_Y, EYE_RX, EYE_RY) {
      EllipseBox(x as real, y as real, CENTER_X - EYE_OFFSET, EYE_Y, EYE_RX, EYE_RY);
      if InEllipse(x as real, y as real, CENTER_X + EYE_OFFSET, EYE_Y, EYE_RX, EYE_RY) {
        EllipseBox(x as real, y as real, CENTER_X + EYE_OFFSET, EYE_Y, EYE_RX, EYE_RY);
      }
    }
  }

  /** Reflection about the vertical axis: the left eye becomes the right eye
      and the other way round; every other code stays. */
  function MirrorCode(c: int): int
  {
    if c == LEFT_EYE then RIGHT_EYE else if c == RIGHT_EYE then LEFT_EYE else c
  }

  lemma FaceMirror(k: int, y: int)
    ensures FaceCellType(COLS / 2 - k, y) == MirrorCode(FaceCellType(COLS / 2 + k, y))
  {
    var x1, x2 := COLS / 2 - k, COLS / 2 + k;
    var p1, p2, py := x1 as real, x2 as real, y as real;
    EllipseMirror(p1, CENTER_X, p2, CENTER_X, py, FACE_CY, FACE_RX, FACE_RY, FACE_EDGE);
    EllipseMirror(p1, CENTER_X - EYE_OFFSET, p2, CENTER_X + EYE_OFFSET, py, EYE_Y, EYE_RX, EYE_RY, EYE_EDGE);
    EllipseMirror(p1, CENTER_X + EYE_OFFSET, p2, CENTER_X - EYE_OFFSET, py, EYE_Y, EYE_RX, EYE_RY, EYE_EDGE);
    EllipseMirror(p1, CENTER_X, p2, CENTER_X, py, MOUTH_Y, MOUTH_RX, MOUTH_RY, MOUTH_EDGE);
    EyesDisjoint(x1, y);
    EyesDisjoint(x2, y);
  }

  lemma BodyMirror(k: int, y: int)
    ensures BodyCellType(COLS / 2 - k, y) == BodyCellType(COLS / 2 + k, y)
  {
  }

  /** Mirror symmetry of the whole portrait about column 25. */
  lemma Mirror(k: int, y: int)
    ensures GetCellType(COLS / 2 - k, y) == MirrorCode(GetCellType(COLS / 2 + k, y))
  {
    var x1, x2 := COLS / 2 - k, COLS / 2 + k;
    var p1, p2, py := x1 as real, x2 as real, y as real;
    if HAIR_TOP <= y <= HAIR_BOTTOM {
      EllipseMirror(p1, CENTER_X, p2, CENTER_X, py, HAIR_CY, HairRx(y), HAIR_RY, HAIR_EDGE);
    }
    EllipseMirror(p1, CENTER_X, p2, CENTER_X, py, FACE_CY, FACE_RX, FACE_RY, FACE_EDGE);
    FaceMirror(k, y);
    BodyMirror(k, y);
  }

  /** Sample cells: the crown of the hair, the nose column's centre (face
      fill, not outline), and the centres of both eyes. */
  lemma SampleCells()
    ensures GetCellType(25, 10) == HAIR
    ensures GetCellType(25, 28) == FACE
    ensures GetCellType(19, 24) == LEFT_EYE
    ensures GetCellType(31, 24) == RIGHT_EYE
  {
  }

  // ---------------------------------------------------------------------------
  // Glyph alphabets
  // ---------------------------------------------------------------------------

  const FACE_CHARS: seq<char> := ['@', '#', '%', '&', '*', '+', '=']
  const EYE_CHARS: seq<char> := ['O', '0', 'o', '@', '*']
  const MOUTH_CHARS: seq<char> := ['~', '-', '=', '_', '^']
  const BEARD_CHARS: seq<char> := ['.', ':', ';', ',', '\'', '`']
  const SHIRT_CHARS: seq<char> := ['/', '\\', '|', '-', '+', 'X']
  const HAIR_CHARS: seq<char> := ['#', '@', '%', '&', 'M', 'W']
  /** Alphabet for a code that has no character set of its own. */
  const FALLBACK_CHARS: seq<char> := ['*']

  /** The character set of a region code (`charSets[code] || ['*']`). */
  function CharSet(code: int): (cs: seq<char>)
    ensures |cs| > 0
  {
    if code == FACE then FACE_CHARS
    else if code == LEFT_EYE || code == RIGHT_EYE then EYE_CHARS
    else if code == MOUTH then MOUTH_CHARS
    else if code == BEARD then BEARD_CHARS
    else if code == SHIRT then SHIRT_CHARS
    else if code == HAIR then HAIR_CHARS
    else FALLBACK_CHARS
  }

  /** Index `floor(rand * n)` chosen by a uniform draw rand in [0, 1). */
  function PickIndex(rand: real, n: int): (i: int)
    requires 0.0 <= rand < 1.0 && n > 0
    ensures 0 <= i < n
  {
    MulPos(1.0 - rand, n as real);
    (rand * n as real).Floor
  }

  /** Every index is chosen by some draw. */
  lemma PickIndexOnto(i: int, n: int)
    requires 0 <= i < n
    ensures 0.0 <= i as real / n as real < 1.0
    ensures PickIndex(i as real / n as real, n) == i
  {
  }

  /** The glyph for a region code, given the draw that picks its character:
      no glyph for EMPTY and LINE, one character of the code's set otherwise. */
  function GetChar(code: int, rand: real): (g: string)
    requires 0.0 <= rand < 1.0
    ensures g == "" <==> code == EMPTY || code == LINE
    ensures g != "" ==> |g| == 1 && g[0] in CharSet(code)
  {
    if code == EMPTY || code == LINE then ""
    else
      var chars := CharSet(code);
      [chars[PickIndex(rand, |chars|)]]
  }

  /** Each character of a drawable region's set is produced by some draw. */
  lemma GetCharOnto(code: int, c: char)
    requires code != EMPTY && code != LINE && c in CharSet(code)
    ensures exists rand: real :: 0.0 <= rand < 1.0 && GetChar(code, rand) == [c]
  {
    var chars := CharSet(code);
    var i :| 0 <= i < |chars| && chars[i] == c;
    PickIndexOnto(i, |chars|);
    assert GetChar(code, i as real / |chars| as real) == [c];
  }

  // ---------------------------------------------------------------------------
  // The region grid (`PORTRAIT.grid`, filled by `init`)
  // ---------------------------------------------------------------------------

  /** g has the portrait's shape: ROWS rows of COLS cells, indexed [y][x]. */
  ghost predicate IsGrid<T>(g: seq<seq<T>>)
  {
    |g| == ROWS && forall y :: 0 <= y < ROWS ==> |g[y]| == COLS
  }

  /** g holds every cell's region code. */
  ghost predicate IsRegionGrid(g: seq<seq<int>>)
  {
    IsGrid(g) && forall y, x :: 0 <= y < ROWS && 0 <= x < COLS ==> g[y][x] == GetCellType(x, y)
  }

  class RegionGrid {
    var grid: seq<seq<int>>

    constructor ()
      ensures grid == []
    {
      grid := [];
    }

    /** Classifies every cell, row by row, into `grid` and returns it. */
    method Init() returns (g: seq<seq<int>>)
      modifies this
      ensures IsRegionGrid(grid) && g == grid
    {
      grid := [];
      for y := 0 to ROWS
        invariant |grid| == y
        invariant forall j :: 0 <= j < y ==>
          |grid[j]| == COLS && forall x :: 0 <= x < COLS ==> grid[j][x] == GetCellType(x, j)
      {
        var row: seq<int> := [];
        for x := 0 to COLS
          invariant |row| == x
          invariant forall i :: 0 <= i < x ==> row[i] == GetCellType(i, y)
        {
          row := row + [GetCellType(x, y)];
        }
        grid := grid + [row];
      }
      g := grid;
    }
  }
}
