/** Reference definitions of the mesh the builder produces for a rows x cols
    image, and the properties proved about them: where each pillar's corners
    sit in the vertex list, how many vertices and triangles there are, that
    every wall stands on a grid line, and that the skirt is flat at height 0.
    The grid and skirt loops of imgToMesh.py:58-135 are proved against these
    definitions in module Builder. */
module Layout {
  import opened Seqs
  import opened Pillars

  /** A resized grayscale image: `rows` rows of `cols` pixel values each. */
  predicate IsImage(img: seq<seq<int>>, rows: nat, cols: nat)
  {
    |img| == rows && forall i :: 0 <= i < rows ==> |img[i]| == cols
  }

  /** Every pixel is an 8-bit intensity. */
  predicate IsGray(img: seq<seq<int>>)
  {
    forall i, j :: 0 <= i < |img| && 0 <= j < |img[i]| ==> 0 <= img[i][j] <= 255
  }

  /** A rows x cols array of pillars. */
  predicate IsGrid(grid: seq<seq<Pilar>>, rows: nat, cols: nat)
  {
    |grid| == rows && forall i :: 0 <= i < rows ==> |grid[i]| == cols
  }

  /** The number of vertices: four per grid pillar, and four for each of the
      two skirt pillars made per column and per row. */
  function VertexCount(rows: nat, cols: nat): nat
  {
    4 * rows * cols + 8 * cols + 8 * rows
  }

  // ---------------------------------------------------------------- vertices

  /** The corners of the pillars of grid row i, one chunk per cell. */
  function GridVertexCells(img: seq<seq<int>>, maxHeight: int, i: nat): seq<seq<Vertex>>
    requires i < |img|
  {
    seq(|img[i]|, j requires 0 <= j < |img[i]| => GenerateFourCorners(i, j, Height(img[i][j], maxHeight)))
  }

  /** The corners of the grid pillars, one chunk per row. */
  function GridVertexRows(img: seq<seq<int>>, maxHeight: int): seq<seq<Vertex>>
  {
    seq(|img|, i requires 0 <= i < |img| => Concat(GridVertexCells(img, maxHeight, i)))
  }

  /** The vertices of the grid pillars, in row-major order. */
  function GridVertices(img: seq<seq<int>>, maxHeight: int): seq<Vertex>
  {
    Concat(GridVertexRows(img, maxHeight))
  }

  /** Per column j: the corners of the top skirt pillar at row -1, then those
      of the bottom skirt pillar at row `rows`, both at height 0. */
  function TopBottomCells(rows: nat, cols: nat): seq<seq<Vertex>>
  {
    seq(cols, j => GenerateFourCorners(-1, j, 0.0) + GenerateFourCorners(rows, j, 0.0))
  }

  /** Per row i: the corners of the left skirt pillar at column -1, then those
      of the right skirt pillar at column `cols`, both at height 0. */
  function LeftRightCells(rows: nat, cols: nat): seq<seq<Vertex>>
  {
    seq(rows, i => GenerateFourCorners(i, -1, 0.0) + GenerateFourCorners(i, cols, 0.0))
  }

  /** The skirt vertices: top/bottom skirt pillars, then left/right ones. */
  function SkirtVertices(rows: nat, cols: nat): seq<Vertex>
  {
    Concat(TopBottomCells(rows, cols)) + Concat(LeftRightCells(rows, cols))
  }

  /** The whole vertex list: grid pillars, then the skirt pillars. */
  function ExpectedVertices(img: seq<seq<int>>, maxHeight: int, rows: nat, cols: nat): seq<Vertex>
  {
    GridVertices(img, maxHeight) + SkirtVertices(rows, cols)
  }

  // ----------------------------------------------------------------- pillars

  /** The first n pillars of grid row i: pillar (i, j) owns the four indices
      from 4 * (i * cols + j). */
  function GridPilarCells(img: seq<seq<int>>, maxHeight: int, cols: nat, i: nat, n: nat): seq<Pilar>
    requires i < |img| && n <= |img[i]|
  {
    seq(n, j requires 0 <= j < n => PilarFrom(Height(img[i][j], maxHeight), 4 * (i * cols + j)))
  }

  /** Grid row i of the pillars. */
  function GridPilarRow(img: seq<seq<int>>, maxHeight: int, cols: nat, i: nat): seq<Pilar>
    requires i < |img|
  {
    GridPilarCells(img, maxHeight, cols, i, |img[i]|)
  }

  /** The first n rows of the grid of pillars. */
  function GridPilarRows(img: seq<seq<int>>, maxHeight: int, cols: nat, n: nat): seq<seq<Pilar>>
    requires n <= |img|
  {
    seq(n, i requires 0 <= i < n => GridPilarRow(img, maxHeight, cols, i))
  }

  /** The grid of pillars (pilarList). */
  function GridPilars(img: seq<seq<int>>, maxHeight: int, cols: nat): (grid: seq<seq<Pilar>>)
    requires IsImage(img, |img|, cols)
    ensures IsGrid(grid, |img|, cols)
  {
    GridPilarRows(img, maxHeight, cols, |img|)
  }

  /** One more pillar of a grid row extends the row by that pillar. */
  lemma GridPilarCellsStep(img: seq<seq<int>>, maxHeight: int, cols: nat, i: nat, n: nat)
    requires i < |img| && n < |img[i]|
    ensures GridPilarCells(img, maxHeight, cols, i, n + 1)
      == GridPilarCells(img, maxHeight, cols, i, n) + [PilarFrom(Height(img[i][n], maxHeight), 4 * (i * cols + n))]
  {
  }

  /** One more grid row extends the grid by that row. */
  lemma GridPilarRowsStep(img: seq<seq<int>>, maxHeight: int, cols: nat, n: nat)
    requires n < |img|
    ensures GridPilarRows(img, maxHeight, cols, n + 1)
      == GridPilarRows(img, maxHeight, cols, n) + [GridPilarRow(img, maxHeight, cols, n)]
  {
  }

  /** `n` zero-height skirt pillars made two per iteration from index `base`
      on: pillar k is the one whose corners start at `base + 8 * k + offset`. */
  function SkirtRun(n: nat, base: nat, offset: nat): seq<Pilar>
  {
    seq(n, k requires 0 <= k < n => PilarFrom(0.0, base + 8 * k + offset))
  }

  /** A run one longer is the run extended by its next pillar. */
  lemma SkirtRunStep(base: nat, offset: nat, k: nat)
    ensures SkirtRun(k + 1, base, offset) == SkirtRun(k, base, offset) + [PilarFrom(0.0, base + 8 * k + offset)]
  {
  }

  /** The top skirt row: pillar j is the first one made in iteration j. */
  function TopRow(rows: nat, cols: nat): seq<Pilar>
  {
    SkirtRun(cols, 4 * rows * cols, 0)
  }

  /** The bottom skirt row: pillar j is the second one made in iteration j. */
  function BottomRow(rows: nat, cols: nat): seq<Pilar>
  {
    SkirtRun(cols, 4 * rows * cols, 4)
  }

  /** The left skirt column: pillar i is the first one made in iteration i. */
  function LeftColumn(rows: nat, cols: nat): seq<Pilar>
  {
    SkirtRun(rows, 4 * rows * cols + 8 * cols, 0)
  }

  /** The right skirt column: pillar i is the second one made in iteration i. */
  function RightColumn(rows: nat, cols: nat): seq<Pilar>
  {
    SkirtRun(rows, 4 * rows * cols + 8 * cols, 4)
  }

  /** Every pillar of the list refers only to the first `n` vertices. */
  predicate RowBelow(row: seq<Pilar>, n: nat)
  {
    forall j :: 0 <= j < |row| ==> PilarBelow(row[j], n)
  }

  /** Every pillar of the grid refers only to the first `n` vertices. */
  predicate GridBelow(grid: seq<seq<Pilar>>, n: nat)
  {
    forall i :: 0 <= i < |grid| ==> RowBelow(grid[i], n)
  }

  /** Every face of the list refers only to the first `n` vertices. */
  predicate FacesBelow(faces: seq<Face>, n: int)
  {
    forall m :: 0 <= m < |faces| ==> FaceBelow(faces[m], n)
  }

  /** The grid pillars refer only to the grid's own 4 * rows * cols vertices. */
  lemma GridPilarsBelow(img: seq<seq<int>>, maxHeight: int, rows: nat, cols: nat, n: nat)
    requires IsImage(img, rows, cols) && 4 * rows * cols <= n
    ensures GridBelow(GridPilars(img, maxHeight, cols), n)
  {
    var grid := GridPilars(img, maxHeight, cols);
    forall i, j | 0 <= i < rows && 0 <= j < cols
      ensures PilarBelow(grid[i][j], n)
    {
      MulMonotone(cols, i + 1, rows);
      MulSucc(cols, i);
      assert i * cols + j + 1 <= rows * cols;
      FourTimes(rows, cols);
    }
  }

  /** A skirt run of n pillars from `base` refers only to the vertices below
      base + 8 * n, the ones the run's iterations made. */
  lemma SkirtRunBelow(n: nat, base: nat, offset: nat, bound: nat)
    requires offset <= 4 && base + 8 * n <= bound
    ensures RowBelow(SkirtRun(n, base, offset), bound)
  {
  }

  /** A bound on the pillars' indices still holds for a larger one. */
  lemma GridBelowWiden(grid: seq<seq<Pilar>>, n: nat, m: nat)
    requires GridBelow(grid, n) && n <= m
    ensures GridBelow(grid, m)
  {
  }

  lemma GridVertexCountNat(rows: nat, cols: nat)
    ensures 0 <= 4 * rows * cols
  {
  }

  lemma FourTimes(a: nat, b: nat)
    ensures 4 * (a * b) == 4 * a * b
  {
  }

  // ------------------------------------------------------------------- faces

  /** A pair of triangles as the two-element list they are appended as. */
  function Both(tris: (Face, Face)): seq<Face>
  {
    [tris.0, tris.1]
  }

  /** The top triangles of one row of pillars, one pair per pillar. */
  function TopFaceCells(row: seq<Pilar>): seq<seq<Face>>
  {
    seq(|row|, j requires 0 <= j < |row| => Both(TopFace(row[j])))
  }

  function TopFaceRows(grid: seq<seq<Pilar>>): seq<seq<Face>>
  {
    seq(|grid|, i requires 0 <= i < |grid| => Concat(TopFaceCells(grid[i])))
  }

  /** The top triangles of all grid pillars, in row-major order. */
  function TopFaces(grid: seq<seq<Pilar>>): seq<Face>
  {
    Concat(TopFaceRows(grid))
  }

  /** The walls between grid rows i and i + 1, one pair per column. */
  function HorizontalWallCells(grid: seq<seq<Pilar>>, cols: nat, i: nat): seq<seq<Face>>
    requires IsGrid(grid, |grid|, cols) && i + 1 < |grid|
  {
    seq(cols, j requires 0 <= j < cols => Both(HorizontalWall(grid[i][j], grid[i + 1][j])))
  }

  function HorizontalWallRows(grid: seq<seq<Pilar>>, cols: nat): seq<seq<Face>>
    requires IsGrid(grid, |grid|, cols) && |grid| >= 1
  {
    seq(|grid| - 1, i requires 0 <= i < |grid| - 1 => Concat(HorizontalWallCells(grid, cols, i)))
  }

  /** All interior walls between row-adjacent grid pillars. */
  function InteriorHorizontalWalls(grid: seq<seq<Pilar>>, cols: nat): seq<Face>
    requires IsGrid(grid, |grid|, cols) && |grid| >= 1
  {
    Concat(HorizontalWallRows(grid, cols))
  }

  /** The walls between columns j and j + 1 of grid row i. */
  function VerticalWallCells(grid: seq<seq<Pilar>>, cols: nat, i: nat): seq<seq<Face>>
    requires IsGrid(grid, |grid|, cols) && i < |grid| && cols >= 1
  {
    seq(cols - 1, j requires 0 <= j < cols - 1 => Both(VerticalWall(grid[i][j], grid[i][j + 1])))
  }

  function VerticalWallRows(grid: seq<seq<Pilar>>, cols: nat): seq<seq<Face>>
    requires IsGrid(grid, |grid|, cols) && cols >= 1
  {
    seq(|grid|, i requires 0 <= i < |grid| => Concat(VerticalWallCells(grid, cols, i)))
  }

  /** All interior walls between column-adjacent grid pillars. */
  function InteriorVerticalWalls(grid: seq<seq<Pilar>>, cols: nat): seq<Face>
    requires IsGrid(grid, |grid|, cols) && cols >= 1
  {
    Concat(VerticalWallRows(grid, cols))
  }

  /** Per column j: the wall from top[j] to grid pillar (0, j), then the wall
      from grid pillar (rows - 1, j) to bottom[j]. */
  function TopBottomWallCells(grid: seq<seq<Pilar>>, cols: nat, top: seq<Pilar>, bottom: seq<Pilar>): seq<seq<Face>>
    requires IsGrid(grid, |grid|, cols) && |grid| >= 1 && |top| == cols && |bottom| == cols
  {
    seq(cols, j requires 0 <= j < cols =>
      Both(HorizontalWall(top[j], grid[0][j])) + Both(HorizontalWall(grid[|grid| - 1][j], bottom[j])))
  }

  /** Per row i: the wall from left[i] to grid pillar (i, 0), then the wall
      from grid pillar (i, cols - 1) to right[i]. */
  function LeftRightWallCells(grid: seq<seq<Pilar>>, cols: nat, left: seq<Pilar>, right: seq<Pilar>): seq<seq<Face>>
    requires IsGrid(grid, |grid|, cols) && cols >= 1 && |left| == |grid| && |right| == |grid|
  {
    seq(|grid|, i requires 0 <= i < |grid| =>
      Both(VerticalWall(left[i], grid[i][0])) + Both(VerticalWall(grid[i][cols - 1], right[i])))
  }

  /** The two triangles closing the base, from the four remembered indices. */
  function BaseFaces(leftTopIdx: nat, rightTopIdx: nat, leftBottomIdx: nat, rightBottomIdx: nat): seq<Face>
  {
    [Face(leftTopIdx, leftBottomIdx, rightBottomIdx), Face(leftTopIdx, rightTopIdx, rightBottomIdx)]
  }

  /** The base closure of a rows x cols mesh: its corners are the first two
      and the last two skirt pillars' corners named by the builder. */
  function ClosingFaces(rows: nat, cols: nat): seq<Face>
    requires rows >= 1
  {
    var total := VertexCount(rows, cols);
    BaseFaces(4 * rows * cols + 8 * cols, 4 * rows * cols + 8 * cols + 4, total - 5, total - 1)
  }

  /** The faces of the grid blocks: top faces, interior horizontal walls,
      interior vertical walls. */
  function InteriorFaces(grid: seq<seq<Pilar>>, cols: nat): seq<Face>
    requires IsGrid(grid, |grid|, cols) && |grid| >= 1 && cols >= 1
  {
    TopFaces(grid) + InteriorHorizontalWalls(grid, cols) + InteriorVerticalWalls(grid, cols)
  }

  /** The faces of the skirt blocks: top/bottom skirt walls, left/right skirt
      walls, base closure. */
  function SkirtFaces(grid: seq<seq<Pilar>>, rows: nat, cols: nat): seq<Face>
    requires rows >= 1 && cols >= 1 && IsGrid(grid, rows, cols)
  {
    Concat(TopBottomWallCells(grid, cols, TopRow(rows, cols), BottomRow(rows, cols)))
      + Concat(LeftRightWallCells(grid, cols, LeftColumn(rows, cols), RightColumn(rows, cols)))
      + ClosingFaces(rows, cols)
  }

  /** The whole face list, in the order it is appended. */
  function MeshFaces(grid: seq<seq<Pilar>>, rows: nat, cols: nat): seq<Face>
    requires rows >= 1 && cols >= 1 && IsGrid(grid, rows, cols)
  {
    InteriorFaces(grid, cols) + SkirtFaces(grid, rows, cols)
  }

  /** The face list built for a rows x cols image. */
  function ExpectedFaces(img: seq<seq<int>>, maxHeight: int, rows: nat, cols: nat): seq<Face>
    requires rows >= 1 && cols >= 1 && IsImage(img, rows, cols)
  {
    MeshFaces(GridPilars(img, maxHeight, cols), rows, cols)
  }

  // ------------------------------------------------------------------ lemmas

  lemma MulLinear(i: nat, j: nat, cols: nat, c: nat)
    ensures 4 * cols * i + (4 * j + c) == 4 * (i * cols + j) + c
  {
  }

  /** The grid vertices number four per grid cell. */
  lemma GridVerticesLength(img: seq<seq<int>>, maxHeight: int, rows: nat, cols: nat)
    requires IsImage(img, rows, cols)
    ensures |GridVertices(img, maxHeight)| == 4 * rows * cols
  {
    var rs := GridVertexRows(img, maxHeight);
    forall i | 0 <= i < rows
      ensures |rs[i]| == 4 * cols
    {
      ConcatLength(GridVertexCells(img, maxHeight, i), 4);
    }
    ConcatLength(rs, 4 * cols);
  }

  /** The vertex list holds VertexCount(rows, cols) vertices. */
  lemma ExpectedVerticesLength(img: seq<seq<int>>, maxHeight: int, rows: nat, cols: nat)
    requires IsImage(img, rows, cols)
    ensures |ExpectedVertices(img, maxHeight, rows, cols)| == VertexCount(rows, cols)
  {
    GridVerticesLength(img, maxHeight, rows, cols);
    ConcatLength(TopBottomCells(rows, cols), 8);
    ConcatLength(LeftRightCells(rows, cols), 8);
  }

  /** Vertex 4 * (i * cols + j) + c of the grid vertices is corner c of cell (i, j). */
  lemma {:induction false} GridVertexAt(img: seq<seq<int>>, maxHeight: int, rows: nat, cols: nat, i: nat, j: nat, c: nat)
    requires IsImage(img, rows, cols) && i < rows && j < cols && c < 4
    ensures 4 * (i * cols + j) + c < |GridVertices(img, maxHeight)|
    ensures GridVertices(img, maxHeight)[4 * (i * cols + j) + c]
         == GenerateFourCorners(i, j, Height(img[i][j], maxHeight))[c]
  {
    var rs := GridVertexRows(img, maxHeight);
    var cells := GridVertexCells(img, maxHeight, i);
    forall n | 0 <= n < rows
      ensures |rs[n]| == 4 * cols
    {
      ConcatLength(GridVertexCells(img, maxHeight, n), 4);
    }
    ConcatAt(cells, 4, j, c);
    ConcatAt(rs, 4 * cols, i, 4 * j + c);
    MulLinear(i, j, cols, c);
  }

  /** Grid pillar (i, j) owns indices 4 * (i * cols + j) + 0..3, which name the
      corners (i, j), (i + 1, j), (i, j + 1), (i + 1, j + 1) of its own cell at
      the height scaled from pixel (i, j). */
  lemma GridPilarPlaced(img: seq<seq<int>>, maxHeight: int, rows: nat, cols: nat, i: nat, j: nat)
    requires IsImage(img, rows, cols) && i < rows && j < cols
    ensures GridPilars(img, maxHeight, cols)[i][j].zVal == Height(img[i][j], maxHeight)
    ensures Placed(ExpectedVertices(img, maxHeight, rows, cols), GridPilars(img, maxHeight, cols)[i][j], i, j)
  {
    GridVertexAt(img, maxHeight, rows, cols, i, j, 0);
    GridVertexAt(img, maxHeight, rows, cols, i, j, 1);
    GridVertexAt(img, maxHeight, rows, cols, i, j, 2);
    GridVertexAt(img, maxHeight, rows, cols, i, j, 3);
  }

  /** Vertex 4 * rows * cols + 8 * j + c is entry c of the chunk of column j
      of the top/bottom skirt. */
  lemma {:induction false} TopBottomVertexAt(img: seq<seq<int>>, maxHeight: int, rows: nat, cols: nat, j: nat, c: nat)
    requires IsImage(img, rows, cols) && j < cols && c < 8
    ensures 4 * rows * cols + 8 * j + c < |ExpectedVertices(img, maxHeight, rows, cols)|
    ensures ExpectedVertices(img, maxHeight, rows, cols)[4 * rows * cols + 8 * j + c]
         == TopBottomCells(rows, cols)[j][c]
  {
    var gv := GridVertices(img, maxHeight);
    var tb := Concat(TopBottomCells(rows, cols));
    var lr := Concat(LeftRightCells(rows, cols));
    GridVerticesLength(img, maxHeight, rows, cols);
    ConcatAt(TopBottomCells(rows, cols), 8, j, c);
    assert (gv + tb + lr)[|gv| + 8 * j + c] == tb[8 * j + c];
  }

  /** Vertex 4 * rows * cols + 8 * cols + 8 * i + c is entry c of the chunk of
      row i of the left/right skirt. */
  lemma {:induction false} LeftRightVertexAt(img: seq<seq<int>>, maxHeight: int, rows: nat, cols: nat, i: nat, c: nat)
    requires IsImage(img, rows, cols) && i < rows && c < 8
    ensures 4 * rows * cols + 8 * cols + 8 * i + c < |ExpectedVertices(img, maxHeight, rows, cols)|
    ensures ExpectedVertices(img, maxHeight, rows, cols)[4 * rows * cols + 8 * cols + 8 * i + c]
         == LeftRightCells(rows, cols)[i][c]
  {
    var gv := GridVertices(img, maxHeight);
    var tb := Concat(TopBottomCells(rows, cols));
    var lr := Concat(LeftRightCells(rows, cols));
    GridVerticesLength(img, maxHeight, rows, cols);
    ConcatLength(TopBottomCells(rows, cols), 8);
    ConcatAt(LeftRightCells(rows, cols), 8, i, c);
    assert (gv + tb + lr)[|gv| + |tb| + 8 * i + c] == lr[8 * i + c];
  }

  /** Skirt pillar at column j of the top row sits at row -1, and that of the
      bottom row at row `rows`; both are flat at height 0. */
  lemma SkirtRowsPlaced(img: seq<seq<int>>, maxHeight: int, rows: nat, cols: nat, j: nat)
    requires IsImage(img, rows, cols) && j < cols
    ensures TopRow(rows, cols)[j].zVal == 0.0 && BottomRow(rows, cols)[j].zVal == 0.0
    ensures Placed(ExpectedVertices(img, maxHeight, rows, cols), TopRow(rows, cols)[j], -1, j)
    ensures Placed(ExpectedVertices(img, maxHeight, rows, cols), BottomRow(rows, cols)[j], rows, j)
  {
    TopBottomVertexAt(img, maxHeight, rows, cols, j, 0);
    TopBottomVertexAt(img, maxHeight, rows, cols, j, 1);
    TopBottomVertexAt(img, maxHeight, rows, cols, j, 2);
    TopBottomVertexAt(img, maxHeight, rows, cols, j, 3);
    TopBottomVertexAt(img, maxHeight, rows, cols, j, 4);
    TopBottomVertexAt(img, maxHeight, rows, cols, j, 5);
    TopBottomVertexAt(img, maxHeight, rows, cols, j, 6);
    TopBottomVertexAt(img, maxHeight, rows, cols, j, 7);
  }

  /** Skirt pillar at row i of the left column sits at column -1, and that of
      the right column at column `cols`; both are flat at height 0. */
  lemma SkirtColumnsPlaced(img: seq<seq<int>>, maxHeight: int, rows: nat, cols: nat, i: nat)
    requires IsImage(img, rows, cols) && i < rows
    ensures LeftColumn(rows, cols)[i].zVal == 0.0 && RightColumn(rows, cols)[i].zVal == 0.0
    ensures Placed(ExpectedVertices(img, maxHeight, rows, cols), LeftColumn(rows, cols)[i], i, -1)
    ensures Placed(ExpectedVertices(img, maxHeight, rows, cols), RightColumn(rows, cols)[i], i, cols)
  {
    LeftRightVertexAt(img, maxHeight, rows, cols, i, 0);
    LeftRightVertexAt(img, maxHeight, rows, cols, i, 1);
    LeftRightVertexAt(img, maxHeight, rows, cols, i, 2);
    LeftRightVertexAt(img, maxHeight, rows, cols, i, 3);
    LeftRightVertexAt(img, maxHeight, rows, cols, i, 4);
    LeftRightVertexAt(img, maxHeight, rows, cols, i, 5);
    LeftRightVertexAt(img, maxHeight, rows, cols, i, 6);
    LeftRightVertexAt(img, maxHeight, rows, cols, i, 7);
  }

  /** The interior wall between grid pillars (i, j) and (i + 1, j) stands on
      the grid line of row coordinate i + 1, along the edge from column j to
      j + 1. */
  lemma InteriorHorizontalWallOnLine(img: seq<seq<int>>, maxHeight: int, rows: nat, cols: nat, i: nat, j: nat)
    requires IsImage(img, rows, cols) && i + 1 < rows && j < cols
    ensures OnRowLine(ExpectedVertices(img, maxHeight, rows, cols),
                      HorizontalWall(GridPilars(img, maxHeight, cols)[i][j], GridPilars(img, maxHeight, cols)[i + 1][j]),
                      i + 1, j)
  {
    var grid := GridPilars(img, maxHeight, cols);
    GridPilarPlaced(img, maxHeight, rows, cols, i, j);
    GridPilarPlaced(img, maxHeight, rows, cols, i + 1, j);
    HorizontalWallOnLine(ExpectedVertices(img, maxHeight, rows, cols), grid[i][j], grid[i + 1][j], i, j);
  }

  /** The interior wall between grid pillars (i, j) and (i, j + 1) stands on
      the grid line of column coordinate j + 1, along the edge from row i to
      i + 1. */
  lemma InteriorVerticalWallOnLine(img: seq<seq<int>>, maxHeight: int, rows: nat, cols: nat, i: nat, j: nat)
    requires IsImage(img, rows, cols) && i < rows && j + 1 < cols
    ensures OnColumnLine(ExpectedVertices(img, maxHeight, rows, cols),
                         VerticalWall(GridPilars(img, maxHeight, cols)[i][j], GridPilars(img, maxHeight, cols)[i][j + 1]),
                         i, j + 1)
  {
    var grid := GridPilars(img, maxHeight, cols);
    GridPilarPlaced(img, maxHeight, rows, cols, i, j);
    GridPilarPlaced(img, maxHeight, rows, cols, i, j + 1);
    VerticalWallOnLine(ExpectedVertices(img, maxHeight, rows, cols), grid[i][j], grid[i][j + 1], i, j);
  }

  /** In column j, the wall joining the top skirt to the grid stands on the
      line of row coordinate 0, and the wall joining the grid to the bottom
      skirt on the line of row coordinate `rows`. */
  lemma SkirtRowWallsOnLine(img: seq<seq<int>>, maxHeight: int, rows: nat, cols: nat, j: nat)
    requires IsImage(img, rows, cols) && rows >= 1 && j < cols
    ensures OnRowLine(ExpectedVertices(img, maxHeight, rows, cols),
                      HorizontalWall(TopRow(rows, cols)[j], GridPilars(img, maxHeight, cols)[0][j]), 0, j)
    ensures OnRowLine(ExpectedVertices(img, maxHeight, rows, cols),
                      HorizontalWall(GridPilars(img, maxHeight, cols)[rows - 1][j], BottomRow(rows, cols)[j]), rows, j)
  {
    var grid := GridPilars(img, maxHeight, cols);
    var vs := ExpectedVertices(img, maxHeight, rows, cols);
    SkirtRowsPlaced(img, maxHeight, rows, cols, j);
    GridPilarPlaced(img, maxHeight, rows, cols, 0, j);
    GridPilarPlaced(img, maxHeight, rows, cols, rows - 1, j);
    HorizontalWallOnLine(vs, TopRow(rows, cols)[j], grid[0][j], -1, j);
    HorizontalWallOnLine(vs, grid[rows - 1][j], BottomRow(rows, cols)[j], rows - 1, j);
  }

  /** In row i, the wall joining the left skirt to the grid stands on the line
      of column coordinate 0, and the wall joining the grid to the right skirt
      on the line of column coordinate `cols`. */
  lemma SkirtColumnWallsOnLine(img: seq<seq<int>>, maxHeight: int, rows: nat, cols: nat, i: nat)
    requires IsImage(img, rows, cols) && cols >= 1 && i < rows
    ensures OnColumnLine(ExpectedVertices(img, maxHeight, rows, cols),
                         VerticalWall(LeftColumn(rows, cols)[i], GridPilars(img, maxHeight, cols)[i][0]), i, 0)
    ensures OnColumnLine(ExpectedVertices(img, maxHeight, rows, cols),
                         VerticalWall(GridPilars(img, maxHeight, cols)[i][cols - 1], RightColumn(rows, cols)[i]), i, cols)
  {
    var grid := GridPilars(img, maxHeight, cols);
    var vs := ExpectedVertices(img, maxHeight, rows, cols);
    SkirtColumnsPlaced(img, maxHeight, rows, cols, i);
    GridPilarPlaced(img, maxHeight, rows, cols, i, 0);
    GridPilarPlaced(img, maxHeight, rows, cols, i, cols - 1);
    VerticalWallOnLine(vs, LeftColumn(rows, cols)[i], grid[i][0], i, -1);
    VerticalWallOnLine(vs, grid[i][cols - 1], RightColumn(rows, cols)[i], i, cols - 1);
  }

  /** Two top triangles per grid pillar. */
  lemma TopFacesLength(grid: seq<seq<Pilar>>, rows: nat, cols: nat)
    requires IsGrid(grid, rows, cols)
    ensures |TopFaces(grid)| == 2 * rows * cols
  {
    forall i | 0 <= i < rows
      ensures |TopFaceRows(grid)[i]| == 2 * cols
    {
      ConcatLength(TopFaceCells(grid[i]), 2);
    }
    ConcatLength(TopFaceRows(grid), 2 * cols);
  }

  /** Two triangles per pair of row-adjacent grid pillars. */
  lemma InteriorHorizontalWallsLength(grid: seq<seq<Pilar>>, rows: nat, cols: nat)
    requires IsGrid(grid, rows, cols) && rows >= 1
    ensures |InteriorHorizontalWalls(grid, cols)| == 2 * (rows - 1) * cols
  {
    forall i | 0 <= i < rows - 1
      ensures |HorizontalWallRows(grid, cols)[i]| == 2 * cols
    {
      ConcatLength(HorizontalWallCells(grid, cols, i), 2);
    }
    ConcatLength(HorizontalWallRows(grid, cols), 2 * cols);
  }

  /** Two triangles per pair of column-adjacent grid pillars. */
  lemma InteriorVerticalWallsLength(grid: seq<seq<Pilar>>, rows: nat, cols: nat)
    requires IsGrid(grid, rows, cols) && cols >= 1
    ensures |InteriorVerticalWalls(grid, cols)| == 2 * rows * (cols - 1)
  {
    forall i | 0 <= i < rows
      ensures |VerticalWallRows(grid, cols)[i]| == 2 * (cols - 1)
    {
      ConcatLength(VerticalWallCells(grid, cols, i), 2);
    }
    ConcatLength(VerticalWallRows(grid, cols), 2 * (cols - 1));
  }

  /** The number of triangles: two per grid pillar, per interior edge and per
      skirt pillar, and two closing the base. */
  lemma FaceCount(grid: seq<seq<Pilar>>, rows: nat, cols: nat)
    requires rows >= 1 && cols >= 1 && IsGrid(grid, rows, cols)
    ensures |MeshFaces(grid, rows, cols)|
         == 2 * rows * cols + 2 * (rows - 1) * cols + 2 * rows * (cols - 1) + 4 * cols + 4 * rows + 2
  {
    TopFacesLength(grid, rows, cols);
    InteriorHorizontalWallsLength(grid, rows, cols);
    InteriorVerticalWallsLength(grid, rows, cols);
    ConcatLength(TopBottomWallCells(grid, cols, TopRow(rows, cols), BottomRow(rows, cols)), 4);
    ConcatLength(LeftRightWallCells(grid, cols, LeftColumn(rows, cols), RightColumn(rows, cols)), 4);
  }

  lemma TwiceLinear(i: nat, j: nat, cols: nat, t: nat)
    ensures 2 * cols * i + (2 * j + t) == 2 * (i * cols + j) + t
  {
  }

  /** Top triangles 2 * (i * cols + j) and 2 * (i * cols + j) + 1 are the top
      face of grid pillar (i, j). */
  lemma TopFaceAt(grid: seq<seq<Pilar>>, rows: nat, cols: nat, i: nat, j: nat, t: nat)
    requires IsGrid(grid, rows, cols) && i < rows && j < cols && t < 2
    ensures 2 * (i * cols + j) + t < |TopFaces(grid)|
    ensures TopFaces(grid)[2 * (i * cols + j) + t] == Both(TopFace(grid[i][j]))[t]
  {
    forall n | 0 <= n < rows
      ensures |TopFaceRows(grid)[n]| == 2 * cols
    {
      ConcatLength(TopFaceCells(grid[n]), 2);
    }
    ConcatAt(TopFaceCells(grid[i]), 2, j, t);
    ConcatAt(TopFaceRows(grid), 2 * cols, i, 2 * j + t);
    TwiceLinear(i, j, cols, t);
  }

  /** Top triangle m belongs to pillar k = m / 2 of the row-major order, which
      sits in row k / cols and column k % cols. */
  lemma CellOfTopFace(m: nat, rows: nat, cols: nat)
    requires m < 2 * rows * cols
    ensures cols >= 1 && m / 2 / cols < rows && m / 2 == m / 2 / cols * cols + m / 2 % cols
  {
    var k := m / 2;
    if k / cols >= rows {
      MulMonotone(cols, rows, k / cols);
      assert false;
    }
  }

  /** The two top triangles of grid pillar k refer only to the first 4 * k + 4
      vertices: the script appends them right after that pillar's corners,
      when exactly those vertices exist. */
  lemma TopFacesAppendedBelow(img: seq<seq<int>>, maxHeight: int, rows: nat, cols: nat)
    requires IsImage(img, rows, cols)
    ensures forall m :: 0 <= m < |TopFaces(GridPilars(img, maxHeight, cols))| ==>
      FaceBelow(TopFaces(GridPilars(img, maxHeight, cols))[m], 4 * (m / 2) + 4)
  {
    var grid := GridPilars(img, maxHeight, cols);
    TopFacesLength(grid, rows, cols);
    forall m | 0 <= m < |TopFaces(grid)|
      ensures FaceBelow(TopFaces(grid)[m], 4 * (m / 2) + 4)
    {
      var k := m / 2;
      CellOfTopFace(m, rows, cols);
      var i, j := k / cols, k % cols;
      TopFaceAt(grid, rows, cols, i, j, m % 2);
      assert grid[i][j] == PilarFrom(Height(img[i][j], maxHeight), 4 * k);
      TopFaceBelow(grid[i][j], 4 * k + 4);
    }
  }

  /** A triangle of a pair refers only to vertices both triangles do. */
  lemma PairBelow(tris: (Face, Face), f: Face, n: nat)
    requires f in Both(tris) && FaceBelow(tris.0, n) && FaceBelow(tris.1, n)
    ensures FaceBelow(f, n)
  {
  }

  /** The top faces refer only to vertices the grid pillars refer to. */
  lemma TopFacesBelow(grid: seq<seq<Pilar>>, rows: nat, cols: nat, n: nat)
    requires IsGrid(grid, rows, cols) && GridBelow(grid, n)
    ensures forall f :: f in TopFaces(grid) ==> FaceBelow(f, n)
  {
    forall f | f in TopFaces(grid)
      ensures FaceBelow(f, n)
    {
      ConcatMember(TopFaceRows(grid), f);
      var i :| 0 <= i < rows && f in TopFaceRows(grid)[i];
      ConcatMember(TopFaceCells(grid[i]), f);
      var j :| 0 <= j < cols && f in TopFaceCells(grid[i])[j];
      TopFaceBelow(grid[i][j], n);
      PairBelow(TopFace(grid[i][j]), f, n);
    }
  }

  /** The interior horizontal walls refer only to vertices the grid pillars
      refer to. */
  lemma HorizontalWallsBelow(grid: seq<seq<Pilar>>, rows: nat, cols: nat, n: nat)
    requires rows >= 1 && IsGrid(grid, rows, cols) && GridBelow(grid, n)
    ensures forall f :: f in InteriorHorizontalWalls(grid, cols) ==> FaceBelow(f, n)
  {
    forall f | f in InteriorHorizontalWalls(grid, cols)
      ensures FaceBelow(f, n)
    {
      ConcatMember(HorizontalWallRows(grid, cols), f);
      var i :| 0 <= i < rows - 1 && f in HorizontalWallRows(grid, cols)[i];
      ConcatMember(HorizontalWallCells(grid, cols, i), f);
      var j :| 0 <= j < cols && f in HorizontalWallCells(grid, cols, i)[j];
      WallsBelow(grid[i][j], grid[i + 1][j], n);
      PairBelow(HorizontalWall(grid[i][j], grid[i + 1][j]), f, n);
    }
  }

  /** The interior vertical walls refer only to vertices the grid pillars
      refer to. */
  lemma VerticalWallsBelow(grid: seq<seq<Pilar>>, rows: nat, cols: nat, n: nat)
    requires cols >= 1 && IsGrid(grid, rows, cols) && GridBelow(grid, n)
    ensures forall f :: f in InteriorVerticalWalls(grid, cols) ==> FaceBelow(f, n)
  {
    var wallRows := VerticalWallRows(grid, cols);
    forall f | f in Concat(wallRows)
      ensures FaceBelow(f, n)
    {
      ConcatMember(wallRows, f);
      var i :| 0 <= i < |wallRows| && f in wallRows[i];
      var cells := VerticalWallCells(grid, cols, i);
      ConcatMember(cells, f);
      var j :| 0 <= j < |cells| && f in cells[j];
      VerticalWallCellAt(grid, cols, i, j);
      WallsBelow(grid[i][j], grid[i][j + 1], n);
      PairBelow(VerticalWall(grid[i][j], grid[i][j + 1]), f, n);
    }
  }

  lemma VerticalWallCellAt(grid: seq<seq<Pilar>>, cols: nat, i: nat, j: nat)
    requires IsGrid(grid, |grid|, cols) && i < |grid| && cols >= 1 && j < cols - 1
    ensures VerticalWallCells(grid, cols, i)[j] == Both(VerticalWall(grid[i][j], grid[i][j + 1]))
  {
  }

  /** The faces of the grid blocks refer only to vertices the grid pillars
      refer to. */
  lemma InteriorFacesBelow(grid: seq<seq<Pilar>>, rows: nat, cols: nat, n: nat)
    requires rows >= 1 && cols >= 1 && IsGrid(grid, rows, cols) && GridBelow(grid, n)
    ensures FacesBelow(InteriorFaces(grid, cols), n)
  {
    TopFacesBelow(grid, rows, cols, n);
    HorizontalWallsBelow(grid, rows, cols, n);
    VerticalWallsBelow(grid, rows, cols, n);
  }

  /** The top and bottom skirt walls refer only to vertices the grid pillars
      and the skirt rows refer to. */
  lemma TopBottomWallsBelow(grid: seq<seq<Pilar>>, cols: nat, top: seq<Pilar>, bottom: seq<Pilar>, n: nat)
    requires IsGrid(grid, |grid|, cols) && |grid| >= 1 && |top| == cols && |bottom| == cols
    requires GridBelow(grid, n) && RowBelow(top, n) && RowBelow(bottom, n)
    ensures forall f :: f in Concat(TopBottomWallCells(grid, cols, top, bottom)) ==> FaceBelow(f, n)
  {
    var cells := TopBottomWallCells(grid, cols, top, bottom);
    forall f | f in Concat(cells)
      ensures FaceBelow(f, n)
    {
      ConcatMember(cells, f);
      var j :| 0 <= j < cols && f in cells[j];
      var upper, lower := HorizontalWall(top[j], grid[0][j]), HorizontalWall(grid[|grid| - 1][j], bottom[j]);
      assert cells[j] == Both(upper) + Both(lower);
      WallsBelow(top[j], grid[0][j], n);
      WallsBelow(grid[|grid| - 1][j], bottom[j], n);
      if f in Both(upper) {
        PairBelow(upper, f, n);
      } else {
        PairBelow(lower, f, n);
      }
    }
  }

  /** The left and right skirt walls refer only to vertices the grid pillars
      and the skirt columns refer to. */
  lemma LeftRightWallsBelow(grid: seq<seq<Pilar>>, cols: nat, left: seq<Pilar>, right: seq<Pilar>, n: nat)
    requires IsGrid(grid, |grid|, cols) && cols >= 1 && |left| == |grid| && |right| == |grid|
    requires GridBelow(grid, n) && RowBelow(left, n) && RowBelow(right, n)
    ensures forall f :: f in Concat(LeftRightWallCells(grid, cols, left, right)) ==> FaceBelow(f, n)
  {
    var cells := LeftRightWallCells(grid, cols, left, right);
    forall f | f in Concat(cells)
      ensures FaceBelow(f, n)
    {
      ConcatMember(cells, f);
      var i :| 0 <= i < |grid| && f in cells[i];
      var first, last := VerticalWall(left[i], grid[i][0]), VerticalWall(grid[i][cols - 1], right[i]);
      assert cells[i] == Both(first) + Both(last);
      WallsBelow(left[i], grid[i][0], n);
      WallsBelow(grid[i][cols - 1], right[i], n);
      if f in Both(first) {
        PairBelow(first, f, n);
      } else {
        PairBelow(last, f, n);
      }
    }
  }

  /** The top and bottom skirt walls refer only to the VertexCount(rows, cols)
      vertices when the grid pillars do. */
  lemma SkirtRowWallsBelow(grid: seq<seq<Pilar>>, rows: nat, cols: nat)
    requires rows >= 1 && IsGrid(grid, rows, cols) && GridBelow(grid, VertexCount(rows, cols))
    ensures forall f :: f in Concat(TopBottomWallCells(grid, cols, TopRow(rows, cols), BottomRow(rows, cols))) ==>
      FaceBelow(f, VertexCount(rows, cols))
  {
    SkirtRunBelow(cols, 4 * rows * cols, 0, VertexCount(rows, cols));
    SkirtRunBelow(cols, 4 * rows * cols, 4, VertexCount(rows, cols));
    TopBottomWallsBelow(grid, cols, TopRow(rows, cols), BottomRow(rows, cols), VertexCount(rows, cols));
  }

  /** The left and right skirt walls refer only to the VertexCount(rows, cols)
      vertices when the grid pillars do. */
  lemma SkirtColumnWallsBelow(grid: seq<seq<Pilar>>, rows: nat, cols: nat)
    requires cols >= 1 && IsGrid(grid, rows, cols) && GridBelow(grid, VertexCount(rows, cols))
    ensures forall f :: f in Concat(LeftRightWallCells(grid, cols, LeftColumn(rows, cols), RightColumn(rows, cols))) ==>
      FaceBelow(f, VertexCount(rows, cols))
  {
    SkirtRunBelow(rows, 4 * rows * cols + 8 * cols, 0, VertexCount(rows, cols));
    SkirtRunBelow(rows, 4 * rows * cols + 8 * cols, 4, VertexCount(rows, cols));
    LeftRightWallsBelow(grid, cols, LeftColumn(rows, cols), RightColumn(rows, cols), VertexCount(rows, cols));
  }

  /** The faces of the skirt blocks, base closure included, refer only to the
      VertexCount(rows, cols) vertices when the grid pillars do. */
  lemma SkirtFacesBelow(grid: seq<seq<Pilar>>, rows: nat, cols: nat)
    requires rows >= 1 && cols >= 1 && IsGrid(grid, rows, cols) && GridBelow(grid, VertexCount(rows, cols))
    ensures FacesBelow(SkirtFaces(grid, rows, cols), VertexCount(rows, cols))
  {
    SkirtRowWallsBelow(grid, rows, cols);
    SkirtColumnWallsBelow(grid, rows, cols);
  }

  /** The mesh's two top triangles of grid pillar k (faces 2 * k and
      2 * k + 1) refer only to the first 4 * k + 4 vertices, the ones that
      exist when the script appends them right after that pillar's corners. */
  lemma MeshTopFacesBelow(img: seq<seq<int>>, maxHeight: int, rows: nat, cols: nat)
    requires rows >= 1 && cols >= 1 && IsImage(img, rows, cols)
    ensures forall m :: 0 <= m < |TopFaces(GridPilars(img, maxHeight, cols))| ==>
      m < |ExpectedFaces(img, maxHeight, rows, cols)| && FaceBelow(ExpectedFaces(img, maxHeight, rows, cols)[m], 4 * (m / 2) + 4)
  {
    var grid := GridPilars(img, maxHeight, cols);
    assert ExpectedFaces(img, maxHeight, rows, cols) == InteriorFaces(grid, cols) + SkirtFaces(grid, rows, cols);
    TopFacesAppendedBelow(img, maxHeight, rows, cols);
  }

  /** The mesh's faces from the grid blocks refer only to the 4 * rows * cols
      grid vertices, the only ones that exist while those blocks run. */
  lemma MeshGridFacesBelow(img: seq<seq<int>>, maxHeight: int, rows: nat, cols: nat)
    requires rows >= 1 && cols >= 1 && IsImage(img, rows, cols)
    ensures forall m :: 0 <= m < |InteriorFaces(GridPilars(img, maxHeight, cols), cols)| ==>
      m < |ExpectedFaces(img, maxHeight, rows, cols)| && FaceBelow(ExpectedFaces(img, maxHeight, rows, cols)[m], 4 * rows * cols)
  {
    var grid := GridPilars(img, maxHeight, cols);
    assert ExpectedFaces(img, maxHeight, rows, cols) == InteriorFaces(grid, cols) + SkirtFaces(grid, rows, cols);
    PartsBelow(img, maxHeight, rows, cols);
  }

  /** Every face of the mesh refers only to one of its VertexCount(rows, cols)
      vertices. */
  lemma MeshFacesBelow(img: seq<seq<int>>, maxHeight: int, rows: nat, cols: nat)
    requires rows >= 1 && cols >= 1 && IsImage(img, rows, cols)
    ensures FacesBelow(ExpectedFaces(img, maxHeight, rows, cols), VertexCount(rows, cols))
  {
    var grid := GridPilars(img, maxHeight, cols);
    assert ExpectedFaces(img, maxHeight, rows, cols) == InteriorFaces(grid, cols) + SkirtFaces(grid, rows, cols);
    PartsBelow(img, maxHeight, rows, cols);
  }

  /** The faces of the grid blocks refer only to the grid vertices and the
      faces of the skirt blocks only to the vertex list. */
  lemma PartsBelow(img: seq<seq<int>>, maxHeight: int, rows: nat, cols: nat)
    requires rows >= 1 && cols >= 1 && IsImage(img, rows, cols)
    ensures FacesBelow(InteriorFaces(GridPilars(img, maxHeight, cols), cols), 4 * rows * cols)
    ensures FacesBelow(SkirtFaces(GridPilars(img, maxHeight, cols), rows, cols), VertexCount(rows, cols))
  {
    var grid := GridPilars(img, maxHeight, cols);
    GridVertexCountNat(rows, cols);
    var g: nat := 4 * rows * cols;
    GridPilarsBelow(img, maxHeight, rows, cols, g);
    InteriorFacesBelow(grid, rows, cols, g);
    GridBelowWiden(grid, g, VertexCount(rows, cols));
    SkirtFacesBelow(grid, rows, cols);
  }

  /** The four remembered base indices name the first corner of the first left
      and first right skirt pillar, and the last corner of the last left and
      last right skirt pillar. The base quadrilateral they close is therefore
      (0, -1), (0, cols), (rows, 0), (rows, cols + 1) at height 0. */
  lemma BaseQuadCorners(img: seq<seq<int>>, maxHeight: int, rows: nat, cols: nat)
    requires rows >= 1 && cols >= 1 && IsImage(img, rows, cols)
    ensures |ExpectedVertices(img, maxHeight, rows, cols)| == VertexCount(rows, cols)
    ensures ExpectedVertices(img, maxHeight, rows, cols)[4 * rows * cols + 8 * cols] == Vertex(0, -1, 0.0)
    ensures ExpectedVertices(img, maxHeight, rows, cols)[4 * rows * cols + 8 * cols + 4] == Vertex(0, cols, 0.0)
    ensures ExpectedVertices(img, maxHeight, rows, cols)[VertexCount(rows, cols) - 5] == Vertex(rows, 0, 0.0)
    ensures ExpectedVertices(img, maxHeight, rows, cols)[VertexCount(rows, cols) - 1] == Vertex(rows, cols + 1, 0.0)
  {
    ExpectedVerticesLength(img, maxHeight, rows, cols);
    SkirtColumnsPlaced(img, maxHeight, rows, cols, 0);
    SkirtColumnsPlaced(img, maxHeight, rows, cols, rows - 1);
  }

  /** Every grid vertex is at the height scaled from its pixel, so for 8-bit
      pixels and a non-negative maximum it lies between 0 and maxHeight. */
  lemma GridVertexHeights(img: seq<seq<int>>, maxHeight: int, rows: nat, cols: nat)
    requires IsImage(img, rows, cols) && IsGray(img) && 0 <= maxHeight
    ensures forall v :: v in GridVertices(img, maxHeight) ==> 0.0 <= v.z <= maxHeight as real
  {
    forall v: Vertex | v in GridVertices(img, maxHeight)
      ensures 0.0 <= v.z <= maxHeight as real
    {
      ConcatMember(GridVertexRows(img, maxHeight), v);
      var i :| 0 <= i < rows && v in GridVertexRows(img, maxHeight)[i];
      ConcatMember(GridVertexCells(img, maxHeight, i), v);
    }
  }

  /** Every skirt vertex is at height 0. */
  lemma SkirtVerticesFlat(rows: nat, cols: nat)
    ensures forall v :: v in SkirtVertices(rows, cols) ==> v.z == 0.0
  {
    forall v: Vertex | v in SkirtVertices(rows, cols)
      ensures v.z == 0.0
    {
      if v in Concat(TopBottomCells(rows, cols)) {
        ConcatMember(TopBottomCells(rows, cols), v);
      } else {
        ConcatMember(LeftRightCells(rows, cols), v);
      }
    }
  }

  /** Every vertex after the grid's first 4 * rows * cols, i.e. every skirt
      vertex, is at height 0. */
  lemma SkirtVertexHeights(img: seq<seq<int>>, maxHeight: int, rows: nat, cols: nat)
    requires IsImage(img, rows, cols)
    ensures forall n :: 4 * rows * cols <= n < |ExpectedVertices(img, maxHeight, rows, cols)| ==>
      ExpectedVertices(img, maxHeight, rows, cols)[n].z == 0.0
  {
    var gv: seq<Vertex> := GridVertices(img, maxHeight);
    var skirt: seq<Vertex> := SkirtVertices(rows, cols);
    var vs: seq<Vertex> := ExpectedVertices(img, maxHeight, rows, cols);
    var g := 4 * rows * cols;
    GridVerticesLength(img, maxHeight, rows, cols);
    SkirtVerticesFlat(rows, cols);
    forall n | g <= n < |vs|
      ensures vs[n].z == 0.0
    {
      assert vs[n] == skirt[n - g];
    }
  }

  /** For 8-bit pixels and a non-negative maximum, every vertex lies between
      height 0 and maxHeight. */
  lemma VertexHeights(img: seq<seq<int>>, maxHeight: int, rows: nat, cols: nat)
    requires IsImage(img, rows, cols) && IsGray(img) && 0 <= maxHeight
    ensures forall v :: v in ExpectedVertices(img, maxHeight, rows, cols) ==> 0.0 <= v.z <= maxHeight as real
  {
    var gv: seq<Vertex> := GridVertices(img, maxHeight);
    var skirt: seq<Vertex> := SkirtVertices(rows, cols);
    GridVerticesLength(img, maxHeight, rows, cols);
    GridVertexHeights(img, maxHeight, rows, cols);
    SkirtVerticesFlat(rows, cols);
  }
}
