/** Cell arithmetic for viewport filtering.

    Coordinates are fixed-point degrees (seven decimals), so floors and wraps are exact. */
module Grid {
  import opened Sets

  const DEG := 10_000_000
  const HALF := 180 * DEG
  const POLE := 90 * DEG

  datatype Cell = Cell(x: int, y: int)

  /** A block of cells, edges included. */
  datatype Rect = Rect(minX: int, minY: int, maxX: int, maxY: int) {
    predicate Contains(cell: Cell) {
      minX <= cell.x <= maxX && minY <= cell.y <= maxY
    }
  }

  /** A box of coordinates; with `west > east` it runs across 180. */
  datatype BBox = BBox(west: int, south: int, east: int, north: int) {
    predicate Valid() {
      && -HALF <= west <= HALF && -HALF <= east <= HALF
      && -POLE <= south <= north <= POLE
    }

    predicate Crosses() {
      west > east
    }

    function Parts(): seq<BBox> {
      if !Crosses() then [this]
      else [BBox(west, south, HALF, north), BBox(-HALF, south, east, north)]
    }

    predicate Contains(lat: int, lon: int) {
      && south <= lat <= north
      && if Crosses() then lon >= west || lon <= east else west <= lon <= east
    }
  }

  function WrapLon(lon: int): int {
    (lon + HALF) % (2 * HALF) - HALF
  }

  function Clamp(lat: int): int {
    if lat < -POLE then -POLE else if lat > POLE then POLE else lat
  }

  function RowOf(lat: int, size: int): int
    requires size > 0
  {
    Clamp(lat) / size
  }

  /** The column an edge of a box falls in: one at 180 is in the easternmost. */
  function ColumnOf(lon: int, size: int): int
    requires size > 0
  {
    if lon >= HALF then (HALF - 1) / size else WrapLon(lon) / size
  }

  function CellOf(lat: int, lon: int, size: int): Cell
    requires size > 0
  {
    Cell(WrapLon(lon) / size, RowOf(lat, size))
  }

  function RectOf(part: BBox, size: int): Rect
    requires size > 0
  {
    Rect(ColumnOf(part.west, size), RowOf(part.south, size),
         ColumnOf(part.east, size), RowOf(part.north, size))
  }

  function RectsFor(box: BBox, size: int): seq<Rect>
    requires size > 0
  {
    seq(|box.Parts()|, i requires 0 <= i < |box.Parts()| => RectOf(box.Parts()[i], size))
  }

  predicate Covers(rects: seq<Rect>, cell: Cell) {
    exists i :: 0 <= i < |rects| && rects[i].Contains(cell)
  }

  // ---------------------------------------------------------------------------
  // A box covers the cells of the positions it contains
  // ---------------------------------------------------------------------------

  lemma DivMonotone(a: int, b: int, size: int)
    requires size > 0 && a <= b
    ensures a / size <= b / size
  {
    var qa, qb := a / size, b / size;
    assert a == qa * size + a % size && b == qb * size + b % size;
    if qa > qb {
      assert (qa - qb) * size >= size by {
        var k := qa - qb - 1;
        assert (qa - qb) * size == k * size + size;
      }
      assert false;
    }
  }

  lemma WrapInRange(lon: int)
    requires -HALF <= lon < HALF
    ensures WrapLon(lon) == lon
  {
  }

  lemma ColumnMonotone(a: int, b: int, size: int)
    requires size > 0 && -HALF <= a <= b <= HALF
    ensures ColumnOf(a, size) <= ColumnOf(b, size)
    ensures a < HALF ==> ColumnOf(a, size) == a / size
  {
    if a < HALF { WrapInRange(a); }
    if b < HALF { WrapInRange(b); DivMonotone(a, b, size); }
    else if a < HALF { DivMonotone(a, HALF - 1, size); }
  }

  lemma RowMonotone(a: int, b: int, size: int)
    requires size > 0 && a <= b
    ensures RowOf(a, size) <= RowOf(b, size)
  {
    DivMonotone(Clamp(a), Clamp(b), size);
  }

  /** A part that holds a position strictly west of 180 covers its cell. */
  lemma PartCovers(part: BBox, lat: int, lon: int, size: int)
    requires size > 0
    requires -HALF <= part.west <= lon <= part.east <= HALF && lon < HALF
    requires part.south <= lat <= part.north
    ensures RectOf(part, size).Contains(CellOf(lat, lon, size))
  {
    WrapInRange(lon);
    ColumnMonotone(part.west, lon, size);
    ColumnMonotone(lon, part.east, size);
    RowMonotone(part.south, lat, size);
    RowMonotone(lat, part.north, size);
  }

  lemma PartOfBox(box: BBox, i: int, cell: Cell, size: int)
    requires size > 0 && 0 <= i < |box.Parts()|
    requires RectOf(box.Parts()[i], size).Contains(cell)
    ensures Covers(RectsFor(box, size), cell)
  {
    assert RectsFor(box, size)[i].Contains(cell);
  }

  /** The exact extent of viewport completeness. A position on the antimeridian itself is
      filed in the westernmost column, so it is found exactly when the box crosses 180 or
      its own west edge lies in that column; every other contained position is found. */
  lemma ContainedIsCovered(box: BBox, lat: int, lon: int, size: int)
    requires size > 0 && box.Valid() && -HALF <= lon <= HALF
    requires box.Contains(lat, lon)
    ensures Covers(RectsFor(box, size), CellOf(lat, lon, size))
       <==> lon < HALF || box.Crosses() || ColumnOf(box.west, size) == -HALF / size
  {
    var cell := CellOf(lat, lon, size);
    if lon < HALF {
      if box.Crosses() {
        var i := if lon >= box.west then 0 else 1;
        PartCovers(box.Parts()[i], lat, lon, size);
        PartOfBox(box, i, cell, size);
      } else {
        PartCovers(box, lat, lon, size);
        PartOfBox(box, 0, cell, size);
      }
    } else {
      AntimeridianCase(box, lat, size);
    }
  }

  lemma AntimeridianCase(box: BBox, lat: int, size: int)
    requires size > 0 && box.Valid() && box.Contains(lat, HALF)
    ensures Covers(RectsFor(box, size), CellOf(lat, HALF, size))
       <==> box.Crosses() || ColumnOf(box.west, size) == -HALF / size
  {
    var cell := CellOf(lat, HALF, size);
    assert WrapLon(HALF) == -HALF;
    assert cell.x == -HALF / size;
    RowMonotone(box.south, lat, size);
    RowMonotone(lat, box.north, size);
    ColumnMonotone(-HALF, box.west, size);
    if box.Crosses() {
      ColumnMonotone(-HALF, box.east, size);
      assert RectOf(box.Parts()[1], size).Contains(cell);
      PartOfBox(box, 1, cell, size);
    } else {
      ColumnMonotone(-HALF, box.east, size);
      assert RectsFor(box, size) == [RectOf(box, size)];
      if ColumnOf(box.west, size) == -HALF / size {
        assert RectsFor(box, size)[0].Contains(cell);
      }
    }
  }

  /** A box that reaches 180 without crossing it misses a device standing on 180. */
  lemma EasternEdgeIsMissed()
    ensures BBox(170 * DEG, 0, HALF, DEG).Contains(0, HALF)
    ensures !Covers(RectsFor(BBox(170 * DEG, 0, HALF, DEG), DEG), CellOf(0, HALF, DEG))
  {
    ContainedIsCovered(BBox(170 * DEG, 0, HALF, DEG), 0, HALF, DEG);
    WrapInRange(170 * DEG);
  }

  // ---------------------------------------------------------------------------
  // A box covers no other cells
  // ---------------------------------------------------------------------------

  lemma DivIs(a: int, q: int, size: int)
    requires size > 0 && q * size <= a < q * size + size
    ensures a / size == q
  {
    var p := a / size;
    assert a == p * size + a % size;
    if p > q { MultipleStep(p, q, size); }
    if p < q { MultipleStep(q, p, size); }
  }

  lemma MultipleStep(p: int, q: int, size: int)
    requires size > 0 && p > q
    ensures p * size >= q * size + size
  {
    var k := p - q - 1;
    assert p * size == q * size + size + k * size;
  }

  lemma DivBounds(a: int, size: int)
    requires size > 0
    ensures (a / size) * size <= a < (a / size) * size + size
  {
    assert a == (a / size) * size + a % size;
  }

  /** A position's cell is the square it lies in, after wrapping the longitude into [-180, 180)
      and holding the latitude within the poles. */
  lemma CellIsItsSquare(lat: int, lon: int, size: int)
    requires size > 0
    ensures var c := CellOf(lat, lon, size);
            && (exists k :: c.x * size <= lon + k * (2 * HALF) < c.x * size + size
                            && -HALF <= lon + k * (2 * HALF) < HALF)
            && c.y * size <= (if lat < -POLE then -POLE else if lat > POLE then POLE else lat) < c.y * size + size
  {
    var w := WrapLon(lon);
    var k := -((lon + HALF) / (2 * HALF));
    assert lon + HALF == ((lon + HALF) / (2 * HALF)) * (2 * HALF) + (lon + HALF) % (2 * HALF);
    assert w == lon + k * (2 * HALF);
    DivBounds(w, size);
    DivBounds(Clamp(lat), size);
  }

  /** Every column between those of two longitudes holds one of the longitudes between them. */
  lemma BetweenColumns(a: int, b: int, x: int, size: int) returns (v: int)
    requires size > 0 && a <= b && a / size <= x <= b / size
    ensures a <= v <= b && v / size == x
  {
    DivBounds(a, size);
    DivBounds(b, size);
    if x == a / size {
      v := a;
    } else {
      v := x * size;
      MultipleStep(x, a / size, size);
      if x < b / size { MultipleStep(b / size, x, size); }
      DivIs(v, x, size);
    }
  }

  /** The last longitude of an edge that is filed east of everything: 180 itself is not. */
  function Inner(lon: int): int {
    if lon >= HALF then HALF - 1 else lon
  }

  lemma PartIsTouched(part: BBox, cell: Cell, size: int) returns (lat: int, lon: int)
    requires size > 0 && RectOf(part, size).Contains(cell)
    requires -HALF <= part.west <= part.east <= HALF && -POLE <= part.south <= part.north <= POLE
    ensures part.south <= lat <= part.north && Inner(part.west) <= lon <= Inner(part.east)
    ensures CellOf(lat, lon, size) == cell
  {
    WrapInRange(Inner(part.west));
    WrapInRange(Inner(part.east));
    lat := BetweenColumns(part.south, part.north, cell.y, size);
    lon := BetweenColumns(Inner(part.west), Inner(part.east), cell.x, size);
    WrapInRange(lon);
  }

  /** A position west of 180 that the box holds, or that lies just short of its west edge when
      that edge is 180 itself. */
  predicate Reaches(box: BBox, lat: int, lon: int) {
    && -HALF <= lon < HALF
    && (box.Contains(lat, lon) || (box.west == HALF && lon == HALF - 1 && box.south <= lat <= box.north))
  }

  lemma PartIsReached(box: BBox, i: int, lat: int, lon: int)
    requires box.Valid() && 0 <= i < |box.Parts()|
    requires var part := box.Parts()[i];
             part.south <= lat <= part.north && Inner(part.west) <= lon <= Inner(part.east)
    ensures Reaches(box, lat, lon)
  {
  }

  /** A window names no cell in vain: each of its cells is the cell of a position the box
      reaches. */
  lemma CoveredIsReached(box: BBox, cell: Cell, size: int)
    requires size > 0 && box.Valid() && Covers(RectsFor(box, size), cell)
    ensures exists lat, lon :: Reaches(box, lat, lon) && CellOf(lat, lon, size) == cell
  {
    var i :| 0 <= i < |RectsFor(box, size)| && RectsFor(box, size)[i].Contains(cell);
    var lat, lon := PartIsTouched(box.Parts()[i], cell, size);
    PartIsReached(box, i, lat, lon);
  }

  // ---------------------------------------------------------------------------
  // Joining a tick's cells with a window
  // ---------------------------------------------------------------------------

  ghost predicate Disjoint(rects: seq<Rect>) {
    forall i, j, c :: 0 <= i < j < |rects| && rects[i].Contains(c) ==> !rects[j].Contains(c)
  }

  /** How many rectangles hold a cell. */
  function Layers(rects: seq<Rect>, cell: Cell): nat {
    if rects == [] then 0
    else Layers(rects[..|rects| - 1], cell) + if rects[|rects| - 1].Contains(cell) then 1 else 0
  }

  lemma {:induction false} LayersCount(rects: seq<Rect>, cell: Cell)
    ensures Layers(rects, cell) > 0 <==> Covers(rects, cell)
    ensures Disjoint(rects) ==> Layers(rects, cell) <= 1
  {
    if rects != [] {
      var init := rects[..|rects| - 1];
      LayersCount(init, cell);
      assert Covers(init, cell) ==> Covers(rects, cell) by {
        if Covers(init, cell) {
          var i :| 0 <= i < |init| && init[i].Contains(cell);
          assert rects[i].Contains(cell);
        }
      }
      if Covers(rects, cell) {
        var i :| 0 <= i < |rects| && rects[i].Contains(cell);
        if i < |init| { assert init[i].Contains(cell); }
      }
      if Disjoint(rects) {
        assert Disjoint(init) by {
          forall i, j, c | 0 <= i < j < |init| && init[i].Contains(c) ensures !init[j].Contains(c) {
            assert rects[i].Contains(c);
          }
        }
      }
    }
  }

  /** Whether a column-by-column scan of `rect` has already passed a cell. */
  predicate Passed(rect: Rect, cell: Cell, x: int, y: int) {
    rect.Contains(cell) && (cell.x < x || (cell.x == x && cell.y < y))
  }

  /** One join: walk the window. */
  method VisibleByWindow<T>(rects: seq<Rect>, chunks: map<Cell, T>) returns (found: seq<Cell>)
    ensures forall c :: multiset(found)[c] == if c in chunks then Layers(rects, c) else 0
  {
    found := [];
    for k := 0 to |rects|
      invariant forall c :: multiset(found)[c] == if c in chunks then Layers(rects[..k], c) else 0
    {
      var more := ScanRect(rects[k], chunks);
      assert rects[..k + 1][..k] == rects[..k];
      found := found + more;
    }
    assert rects[..|rects|] == rects;
  }

  method ScanRect<T>(rect: Rect, chunks: map<Cell, T>) returns (found: seq<Cell>)
    ensures forall c :: multiset(found)[c] == One(c in chunks && rect.Contains(c))
  {
    found := [];
    var x := rect.minX;
    while x <= rect.maxX
      invariant rect.minX <= x
      invariant rect.minX <= rect.maxX ==> x <= rect.maxX + 1
      invariant forall c :: multiset(found)[c] == One(c in chunks && Passed(rect, c, x, rect.minY))
    {
      var y := rect.minY;
      while y <= rect.maxY
        invariant rect.minY <= y
        invariant rect.minY <= rect.maxY ==> y <= rect.maxY + 1
        invariant forall c :: multiset(found)[c] == One(c in chunks && Passed(rect, c, x, y))
      {
        if Cell(x, y) in chunks {
          found := found + [Cell(x, y)];
        }
        y := y + 1;
      }
      x := x + 1;
    }
  }

  /** The other join: walk the tick. */
  method VisibleByTick<T>(rects: seq<Rect>, chunks: map<Cell, T>) returns (found: seq<Cell>)
    ensures forall c :: multiset(found)[c] == One(c in chunks && Covers(rects, c))
  {
    found := [];
    var left := chunks.Keys;
    while left != {}
      invariant left <= chunks.Keys
      invariant forall c :: multiset(found)[c] == One(c in chunks && c !in left && Covers(rects, c))
      decreases left
    {
      var cell :| cell in left;
      if Covers(rects, cell) {
        found := found + [cell];
      }
      left := left - {cell};
    }
  }

  /** Cells named by a window: how much work the first join would do. */
  function WindowSize(rects: seq<Rect>): int {
    if rects == [] then 0
    else WindowSize(rects[1..])
         + (rects[0].maxX - rects[0].minX + 1) * (rects[0].maxY - rects[0].minY + 1)
  }

  /** Either join selects the same cells; a cell can be repeated only where two rectangles of the window overlap. */
  method VisibleChunks<T>(rects: seq<Rect>, chunks: map<Cell, T>) returns (found: seq<Cell>)
    ensures forall c :: c in found <==> c in chunks && Covers(rects, c)
    ensures Disjoint(rects) ==> forall c :: multiset(found)[c] <= 1
  {
    if WindowSize(rects) <= |chunks| {
      found := VisibleByWindow(rects, chunks);
    } else {
      found := VisibleByTick(rects, chunks);
    }
    forall c
      ensures c in found <==> c in chunks && Covers(rects, c)
      ensures Disjoint(rects) ==> multiset(found)[c] <= 1
    {
      LayersCount(rects, c);
      assert c in found <==> multiset(found)[c] > 0;
    }
  }

  /** The two joins agree as multisets on a window whose rectangles are disjoint. */
  lemma JoinsAgree(rects: seq<Rect>, cell: Cell)
    requires Disjoint(rects)
    ensures Layers(rects, cell) == One(Covers(rects, cell))
  {
    LayersCount(rects, cell);
  }

  /** A window's rectangles are disjoint unless the box crosses 180 and closes on itself:
      its two edges then share a column and every cell of that column is held twice. */
  lemma WindowDisjoint(box: BBox, size: int)
    requires size > 0 && box.Valid()
    ensures Disjoint(RectsFor(box, size))
       <==> !box.Crosses() || ColumnOf(box.east, size) < ColumnOf(box.west, size)
  {
    var rects := RectsFor(box, size);
    if box.Crosses() {
      assert |box.Parts()| == 2;
      var east, west := rects[0], rects[1];
      ColumnMonotone(box.east, box.west, size);
      ColumnMonotone(box.west, HALF, size);
      ColumnMonotone(-HALF, box.east, size);
      RowMonotone(box.south, box.north, size);
      if ColumnOf(box.east, size) == ColumnOf(box.west, size) {
        var shared := Cell(ColumnOf(box.west, size), RowOf(box.south, size));
        assert east.Contains(shared) && west.Contains(shared);
      }
    }
  }
}
