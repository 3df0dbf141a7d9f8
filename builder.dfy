/** The mesh builder of imgToMesh.py:46-135: the growing vertex list, the face
    list, the index counter, the grid of pillars and the four skirt lists,
    filled in by the script's loops one block at a time. */
module Builder {
  import opened Seqs
  import opened Pillars
  import opened Layout

  class MeshBuilder {
    /** The target grid size: `rows` rows of `cols` pillars. */
    const rows: nat
    const cols: nat

    var verts: seq<Vertex>           // vertexList
    var faces: seq<Face>             // indexList
    var idxCnt: nat                  // the next free vertex index
    var pilars: seq<seq<Pilar>>      // pilarList
    var topRow: seq<Pilar>
    var bottomRow: seq<Pilar>
    var leftColumn: seq<Pilar>
    var rightColumn: seq<Pilar>
    var leftTopIdx: nat              // the four corners of the base closure
    var rightTopIdx: nat
    var leftBottomIdx: nat
    var rightBottomIdx: nat

    /** For each face, the number of vertices there were when it was appended. */
    ghost var stamps: seq<nat>

    /** The counter equals the number of vertices, and every face refers only
        to vertices that existed when it was appended. */
    ghost predicate Valid()
      reads this`verts, this`idxCnt, this`faces, this`stamps
    {
      && idxCnt == |verts|
      && |stamps| == |faces|
      && (forall m :: 0 <= m < |faces| ==> FaceBelow(faces[m], stamps[m]) && stamps[m] <= |verts|)
    }

    /** The faces are `f0` followed by the first n chunks of `cells`. */
    ghost predicate FacesAfter(f0: seq<Face>, cells: seq<seq<Face>>, n: nat)
      requires n <= |cells|
      reads this`faces
    {
      faces == f0 + ConcatPrefix(cells, n)
    }

    /** The vertices are `v0` followed by the first n chunks of `cells`. */
    ghost predicate VertsAfter(v0: seq<Vertex>, cells: seq<seq<Vertex>>, n: nat)
      requires n <= |cells|
      reads this`verts
    {
      verts == v0 + ConcatPrefix(cells, n)
    }

    /** An empty builder for a rows x cols grid (imgToMesh.py:46-57). */
    constructor (rows: nat, cols: nat)
      ensures Valid() && this.rows == rows && this.cols == cols
      ensures verts == [] && faces == [] && pilars == [] && idxCnt == 0
      ensures topRow == [] && bottomRow == [] && leftColumn == [] && rightColumn == []
    {
      this.rows, this.cols := rows, cols;
      verts, faces, idxCnt, pilars := [], [], 0, [];
      topRow, bottomRow, leftColumn, rightColumn := [], [], [], [];
      leftTopIdx, rightTopIdx, leftBottomIdx, rightBottomIdx := 0, 0, 0, 0;
      stamps := [];
    }

    /** Appends the four corners of the unit square at (x, y) and height z and
        returns the pillar recording their indices; the counter moves on by 4
        (imgToMesh.py:62-65, 89-93 and the like). */
    method AddPilar(x: int, y: int, z: real) returns (p: Pilar)
      requires Valid()
      modifies this`verts, this`idxCnt
      ensures Valid()
      ensures verts == old(verts) + GenerateFourCorners(x, y, z)
      ensures idxCnt == old(idxCnt) + 4
      ensures p == PilarFrom(z, old(idxCnt))
      ensures Placed(verts, p, x, y)
    {
      verts := verts + GenerateFourCorners(x, y, z);
      p := Pilar(z, idxCnt, idxCnt + 1, idxCnt + 2, idxCnt + 3);
      idxCnt := idxCnt + 4;
    }

    /** Appends a pair of triangles (imgToMesh.py:68-69 and the like). */
    method AddFaces(tris: (Face, Face))
      requires Valid() && FaceBelow(tris.0, |verts|) && FaceBelow(tris.1, |verts|)
      modifies this`faces, this`stamps
      ensures Valid()
      ensures faces == old(faces) + Both(tris)
      ensures stamps == old(stamps) + [|verts|, |verts|]
    {
      faces := faces + [tris.0, tris.1];
      stamps := stamps + [|verts|, |verts|];
    }

    /** Appends two pairs of triangles (imgToMesh.py:119-124 and 127-132). */
    method AddFacePairs(first: (Face, Face), second: (Face, Face))
      requires Valid()
      requires FaceBelow(first.0, |verts|) && FaceBelow(first.1, |verts|)
      requires FaceBelow(second.0, |verts|) && FaceBelow(second.1, |verts|)
      modifies this`faces, this`stamps
      ensures Valid()
      ensures faces == old(faces) + (Both(first) + Both(second))
    {
      AddFaces(first);
      AddFaces(second);
    }

    /** The grid blocks: the pillars with their tops, then the interior walls
        (imgToMesh.py:58-84). */
    method BuildInterior(img: seq<seq<int>>, maxHeight: int)
      requires Valid() && rows >= 1 && cols >= 1 && IsImage(img, rows, cols)
      requires verts == [] && faces == [] && pilars == []
      modifies this`verts, this`idxCnt, this`faces, this`stamps, this`pilars
      ensures Valid()
      ensures verts == GridVertices(img, maxHeight) && idxCnt == 4 * rows * cols
      ensures pilars == GridPilars(img, maxHeight, cols) && GridBelow(pilars, |verts|)
      ensures faces == InteriorFaces(pilars, cols)
    {
      BuildGrid(img, maxHeight);
      GridPilarsBelow(img, maxHeight, rows, cols, |verts|);
      AddInteriorHorizontalWalls();
      AddInteriorVerticalWalls();
    }

    /** The skirt blocks and the base closure (imgToMesh.py:86-135). */
    method BuildSkirt()
      requires Valid() && rows >= 1 && cols >= 1 && IsGrid(pilars, rows, cols) && idxCnt == 4 * rows * cols
      requires GridBelow(pilars, idxCnt)
      requires topRow == [] && bottomRow == [] && leftColumn == [] && rightColumn == []
      modifies this`verts, this`idxCnt, this`faces, this`stamps
      modifies this`topRow, this`bottomRow, this`leftColumn, this`rightColumn
      modifies this`leftTopIdx, this`rightTopIdx, this`leftBottomIdx, this`rightBottomIdx
      ensures Valid()
      ensures verts == old(verts) + SkirtVertices(rows, cols)
      ensures faces == old(faces) + SkirtFaces(pilars, rows, cols)
      ensures topRow == TopRow(rows, cols) && bottomRow == BottomRow(rows, cols)
      ensures leftColumn == LeftColumn(rows, cols) && rightColumn == RightColumn(rows, cols)
      ensures BaseFaces(leftTopIdx, rightTopIdx, leftBottomIdx, rightBottomIdx) == ClosingFaces(rows, cols)
    {
      BuildSkirtPilars();
      BuildSkirtWalls();
      AppendAssoc(old(faces), Concat(TopBottomWallCells(pilars, cols, topRow, bottomRow))
        + Concat(LeftRightWallCells(pilars, cols, leftColumn, rightColumn)), ClosingFaces(rows, cols));
      AppendAssoc(old(faces), Concat(TopBottomWallCells(pilars, cols, topRow, bottomRow)),
        Concat(LeftRightWallCells(pilars, cols, leftColumn, rightColumn)));
    }

    /** The skirt pillars around the grid and the four corners that close the
        base (imgToMesh.py:86-116). */
    method BuildSkirtPilars()
      requires Valid() && rows >= 1 && idxCnt == 4 * rows * cols && GridBelow(pilars, idxCnt)
      requires topRow == [] && bottomRow == [] && leftColumn == [] && rightColumn == []
      modifies this`verts, this`idxCnt
      modifies this`topRow, this`bottomRow, this`leftColumn, this`rightColumn
      modifies this`leftTopIdx, this`rightTopIdx, this`leftBottomIdx, this`rightBottomIdx
      ensures Valid()
      ensures verts == old(verts) + SkirtVertices(rows, cols)
      ensures topRow == TopRow(rows, cols) && bottomRow == BottomRow(rows, cols)
      ensures leftColumn == LeftColumn(rows, cols) && rightColumn == RightColumn(rows, cols)
      ensures GridBelow(pilars, |verts|) && RowBelow(topRow, |verts|) && RowBelow(bottomRow, |verts|)
      ensures RowBelow(leftColumn, |verts|) && RowBelow(rightColumn, |verts|)
      ensures leftTopIdx < |verts| && rightTopIdx < |verts| && leftBottomIdx < |verts| && rightBottomIdx < |verts|
      ensures BaseFaces(leftTopIdx, rightTopIdx, leftBottomIdx, rightBottomIdx) == ClosingFaces(rows, cols)
    {
      BuildTopBottomSkirt();
      BuildLeftRightSkirt();
      SkirtRunBelow(cols, 4 * rows * cols, 0, |verts|);
      SkirtRunBelow(cols, 4 * rows * cols, 4, |verts|);
      SkirtRunBelow(rows, 4 * rows * cols + 8 * cols, 0, |verts|);
      SkirtRunBelow(rows, 4 * rows * cols + 8 * cols, 4, |verts|);
      GridBelowWiden(pilars, old(idxCnt), |verts|);
      AppendAssoc(old(verts), Concat(TopBottomCells(rows, cols)), Concat(LeftRightCells(rows, cols)));
    }

    /** The skirt walls and the base closure (imgToMesh.py:118-135). */
    method BuildSkirtWalls()
      requires Valid() && rows >= 1 && cols >= 1 && IsGrid(pilars, rows, cols) && GridBelow(pilars, |verts|)
      requires |topRow| == cols && |bottomRow| == cols && |leftColumn| == rows && |rightColumn| == rows
      requires RowBelow(topRow, |verts|) && RowBelow(bottomRow, |verts|)
      requires RowBelow(leftColumn, |verts|) && RowBelow(rightColumn, |verts|)
      requires leftTopIdx < |verts| && rightTopIdx < |verts| && leftBottomIdx < |verts| && rightBottomIdx < |verts|
      modifies this`faces, this`stamps
      ensures Valid()
      ensures faces == old(faces)
        + Concat(TopBottomWallCells(pilars, cols, topRow, bottomRow))
        + Concat(LeftRightWallCells(pilars, cols, leftColumn, rightColumn))
        + BaseFaces(leftTopIdx, rightTopIdx, leftBottomIdx, rightBottomIdx)
    {
      AddTopBottomSkirtWalls();
      AddLeftRightSkirtWalls();
      CloseBase();
    }

    /** One pillar per pixel in row-major order, each followed by its two top
        triangles (imgToMesh.py:58-71). */
    method BuildGrid(img: seq<seq<int>>, maxHeight: int)
      requires Valid() && verts == [] && faces == [] && pilars == []
      requires IsImage(img, rows, cols)
      modifies this`verts, this`idxCnt, this`faces, this`stamps, this`pilars
      ensures Valid()
      ensures verts == GridVertices(img, maxHeight)
      ensures |verts| == 4 * rows * cols
      ensures pilars == GridPilars(img, maxHeight, cols)
      ensures faces == TopFaces(pilars)
    {
      for i := 0 to rows
        invariant Valid() && GridDone(img, maxHeight, i)
      {
        AddGridRow(img, maxHeight, i);
      }
      FourTimes(rows, cols);
    }

    /** After i rows of the grid: their vertices, pillars and top triangles, and
        the counter past them. */
    ghost predicate GridDone(img: seq<seq<int>>, maxHeight: int, i: nat)
      requires IsImage(img, rows, cols) && i <= rows
      reads this`verts, this`faces, this`pilars
    {
      && verts == ConcatPrefix(GridVertexRows(img, maxHeight), i)
      && |verts| == 4 * (i * cols)
      && pilars == GridPilarRows(img, maxHeight, cols, i)
      && faces == ConcatPrefix(TopFaceRows(GridPilars(img, maxHeight, cols)), i)
    }

    /** One more row of the grid (imgToMesh.py:59-71). */
    method AddGridRow(img: seq<seq<int>>, maxHeight: int, i: nat)
      requires Valid() && IsImage(img, rows, cols) && i < rows && GridDone(img, maxHeight, i)
      modifies this`verts, this`idxCnt, this`faces, this`stamps, this`pilars
      ensures Valid() && GridDone(img, maxHeight, i + 1)
    {
      var rowPilar := BuildGridRow(img, maxHeight, i);
      GridPilarRowsStep(img, maxHeight, cols, i);
      pilars := pilars + [rowPilar];
      RowStep(i, cols);
    }

    /** The pillars of grid row i, each followed by its two top triangles
        (imgToMesh.py:60-70). */
    method BuildGridRow(img: seq<seq<int>>, maxHeight: int, i: nat) returns (rowPilar: seq<Pilar>)
      requires Valid() && IsImage(img, rows, cols) && i < rows && idxCnt == 4 * (i * cols)
      modifies this`verts, this`idxCnt, this`faces, this`stamps
      ensures Valid()
      ensures verts == old(verts) + Concat(GridVertexCells(img, maxHeight, i))
      ensures idxCnt == 4 * (i * cols + cols)
      ensures rowPilar == GridPilarRow(img, maxHeight, cols, i)
      ensures faces == old(faces) + Concat(TopFaceCells(rowPilar))
    {
      rowPilar := [];
      for j := 0 to cols
        invariant Valid() && RowDone(img, maxHeight, i, j, old(verts), old(faces), rowPilar)
      {
        rowPilar := AddGridCell(img, maxHeight, i, j, old(verts), old(faces), rowPilar);
      }
    }

    /** After j pillars of grid row i, appended behind `v0` and `f0`. */
    ghost predicate RowDone(img: seq<seq<int>>, maxHeight: int, i: nat, j: nat,
                            v0: seq<Vertex>, f0: seq<Face>, rowPilar: seq<Pilar>)
      requires IsImage(img, rows, cols) && i < rows && j <= cols
      reads this`verts, this`idxCnt, this`faces
    {
      && VertsAfter(v0, GridVertexCells(img, maxHeight, i), j)
      && idxCnt == 4 * (i * cols) + 4 * j
      && rowPilar == GridPilarCells(img, maxHeight, cols, i, j)
      && FacesAfter(f0, TopFaceCells(GridPilarRow(img, maxHeight, cols, i)), j)
    }

    /** Pillar j of grid row i with its top (imgToMesh.py:61-70). */
    method AddGridCell(img: seq<seq<int>>, maxHeight: int, i: nat, j: nat,
                       ghost v0: seq<Vertex>, ghost f0: seq<Face>, rowPilar: seq<Pilar>)
      returns (next: seq<Pilar>)
      requires Valid() && IsImage(img, rows, cols) && i < rows && j < cols
      requires RowDone(img, maxHeight, i, j, v0, f0, rowPilar)
      modifies this`verts, this`idxCnt, this`faces, this`stamps
      ensures Valid() && RowDone(img, maxHeight, i, j + 1, v0, f0, next)
    {
      var p := AddGridPilar(i, j, Height(img[i][j], maxHeight));
      GridPilarCellsStep(img, maxHeight, cols, i, j);
      next := rowPilar + [p];
      ConcatExtend(v0, GridVertexCells(img, maxHeight, i), j);
      ConcatExtend(f0, TopFaceCells(GridPilarRow(img, maxHeight, cols, i)), j);
    }

    /** The pillar at (x, y) with height z, followed by its two top triangles
        (imgToMesh.py:62-69). */
    method AddGridPilar(x: int, y: int, z: real) returns (p: Pilar)
      requires Valid()
      modifies this`verts, this`idxCnt, this`faces, this`stamps
      ensures Valid()
      ensures verts == old(verts) + GenerateFourCorners(x, y, z)
      ensures idxCnt == old(idxCnt) + 4
      ensures p == PilarFrom(z, old(idxCnt))
      ensures faces == old(faces) + Both(TopFace(p))
    {
      p := AddPilar(x, y, z);
      TopFaceBelow(p, |verts|);
      AddFaces(TopFace(p));
    }

    /** Walls between row-adjacent grid pillars, row pair by row pair
        (imgToMesh.py:73-77). */
    method AddInteriorHorizontalWalls()
      requires Valid() && rows >= 1 && IsGrid(pilars, rows, cols) && GridBelow(pilars, |verts|)
      modifies this`faces, this`stamps
      ensures Valid()
      ensures faces == old(faces) + InteriorHorizontalWalls(pilars, cols)
    {
      ghost var wallRows := HorizontalWallRows(pilars, cols);
      for i := 0 to rows - 1
        invariant Valid()
        invariant FacesAfter(old(faces), wallRows, i)
      {
        AddHorizontalWallRow(i);
        ConcatExtend(old(faces), wallRows, i);
      }
    }

    /** The walls between grid rows i and i + 1, column by column
        (imgToMesh.py:75-77). */
    method AddHorizontalWallRow(i: nat)
      requires Valid() && IsGrid(pilars, rows, cols) && GridBelow(pilars, |verts|) && i + 1 < rows
      modifies this`faces, this`stamps
      ensures Valid()
      ensures faces == old(faces) + Concat(HorizontalWallCells(pilars, cols, i))
    {
      for j := 0 to cols
        invariant Valid() && FacesAfter(old(faces), HorizontalWallCells(pilars, cols, i), j)
      {
        AddHorizontalWallCell(i, j, old(faces));
      }
    }

    /** The wall between pillar j of grid rows i and i + 1
        (imgToMesh.py:76-77). */
    method AddHorizontalWallCell(i: nat, j: nat, ghost f0: seq<Face>)
      requires Valid() && IsGrid(pilars, rows, cols) && GridBelow(pilars, |verts|) && i + 1 < rows && j < cols
      requires FacesAfter(f0, HorizontalWallCells(pilars, cols, i), j)
      modifies this`faces, this`stamps
      ensures Valid() && FacesAfter(f0, HorizontalWallCells(pilars, cols, i), j + 1)
    {
      assert RowBelow(pilars[i], |verts|) && RowBelow(pilars[i + 1], |verts|);
      WallsBelow(pilars[i][j], pilars[i + 1][j], |verts|);
      AddFaces(HorizontalWall(pilars[i][j], pilars[i + 1][j]));
      ConcatExtend(f0, HorizontalWallCells(pilars, cols, i), j);
    }

    /** Walls between column-adjacent grid pillars, row by row
        (imgToMesh.py:80-84). */
    method AddInteriorVerticalWalls()
      requires Valid() && cols >= 1 && IsGrid(pilars, rows, cols) && GridBelow(pilars, |verts|)
      modifies this`faces, this`stamps
      ensures Valid()
      ensures faces == old(faces) + InteriorVerticalWalls(pilars, cols)
    {
      ghost var wallRows := VerticalWallRows(pilars, cols);
      for i := 0 to rows
        invariant Valid()
        invariant FacesAfter(old(faces), wallRows, i)
      {
        AddVerticalWallRow(i);
        ConcatExtend(old(faces), wallRows, i);
      }
    }

    /** The walls between neighbouring pillars of grid row i
        (imgToMesh.py:82-84). */
    method AddVerticalWallRow(i: nat)
      requires Valid() && cols >= 1 && IsGrid(pilars, rows, cols) && GridBelow(pilars, |verts|) && i < rows
      modifies this`faces, this`stamps
      ensures Valid()
      ensures faces == old(faces) + Concat(VerticalWallCells(pilars, cols, i))
    {
      ghost var cells := VerticalWallCells(pilars, cols, i);
      assert |cells| == cols - 1;
      for j := 0 to cols - 1
        invariant Valid() && FacesAfter(old(faces), cells, j)
      {
        AddVerticalWallCell(i, j, old(faces));
      }
    }

    /** The wall between pillars j and j + 1 of grid row i
        (imgToMesh.py:83-84). */
    method AddVerticalWallCell(i: nat, j: nat, ghost f0: seq<Face>)
      requires Valid() && cols >= 1 && IsGrid(pilars, rows, cols) && GridBelow(pilars, |verts|) && i < rows && j + 1 < cols
      requires FacesAfter(f0, VerticalWallCells(pilars, cols, i), j)
      modifies this`faces, this`stamps
      ensures Valid() && FacesAfter(f0, VerticalWallCells(pilars, cols, i), j + 1)
    {
      assert RowBelow(pilars[i], |verts|);
      WallsBelow(pilars[i][j], pilars[i][j + 1], |verts|);
      AddFaces(VerticalWall(pilars[i][j], pilars[i][j + 1]));
      ConcatExtend(f0, VerticalWallCells(pilars, cols, i), j);
    }

    /** Two zero-height skirt pillars, at (x1, y1) and then at (x2, y2)
        (imgToMesh.py:89-97 and 103-111). */
    method AddSkirtPair(x1: int, y1: int, x2: int, y2: int) returns (first: Pilar, second: Pilar)
      requires Valid()
      modifies this`verts, this`idxCnt
      ensures Valid()
      ensures verts == old(verts) + (GenerateFourCorners(x1, y1, 0.0) + GenerateFourCorners(x2, y2, 0.0))
      ensures idxCnt == old(idxCnt) + 8
      ensures first == PilarFrom(0.0, old(idxCnt)) && second == PilarFrom(0.0, old(idxCnt) + 4)
    {
      first := AddPilar(x1, y1, 0.0);
      second := AddPilar(x2, y2, 0.0);
    }

    /** Per column, a zero-height skirt pillar at row -1 and one at row `rows`
        (imgToMesh.py:86-98). */
    method BuildTopBottomSkirt()
      requires Valid() && idxCnt == 4 * rows * cols && topRow == [] && bottomRow == []
      modifies this`verts, this`idxCnt, this`topRow, this`bottomRow
      ensures Valid()
      ensures verts == old(verts) + Concat(TopBottomCells(rows, cols))
      ensures idxCnt == 4 * rows * cols + 8 * cols
      ensures topRow == TopRow(rows, cols) && bottomRow == BottomRow(rows, cols)
    {
      for j := 0 to cols
        invariant Valid() && SkirtDone(TopBottomCells(rows, cols), old(verts), old(idxCnt), j, topRow, bottomRow)
      {
        AddTopBottomCell(j, old(verts), old(idxCnt));
      }
    }

    /** After k iterations of a skirt loop that started with the vertices `v0`
        and the counter at `base`: the k cells of vertices, and the two lists
        of the pillars made first and second in each iteration. */
    ghost predicate SkirtDone(cells: seq<seq<Vertex>>, v0: seq<Vertex>, base: nat, k: nat,
                              first: seq<Pilar>, second: seq<Pilar>)
      requires k <= |cells|
      reads this`verts, this`idxCnt
    {
      && VertsAfter(v0, cells, k)
      && idxCnt == base + 8 * k
      && first == SkirtRun(k, base, 0) && second == SkirtRun(k, base, 4)
    }

    /** The top and bottom skirt pillars of column j (imgToMesh.py:88-98). */
    method AddTopBottomCell(j: nat, ghost v0: seq<Vertex>, ghost base: nat)
      requires Valid() && j < cols && SkirtDone(TopBottomCells(rows, cols), v0, base, j, topRow, bottomRow)
      modifies this`verts, this`idxCnt, this`topRow, this`bottomRow
      ensures Valid() && SkirtDone(TopBottomCells(rows, cols), v0, base, j + 1, topRow, bottomRow)
    {
      var newTopPilar, newBottomPilar := AddSkirtPair(-1, j, rows, j);
      topRow := topRow + [newTopPilar];
      bottomRow := bottomRow + [newBottomPilar];
      SkirtRunStep(base, 0, j);
      SkirtRunStep(base, 4, j);
      ConcatExtend(v0, TopBottomCells(rows, cols), j);
    }

    /** Remembers the first skirt corners that close the base, builds the side
        skirt, then remembers the last ones (imgToMesh.py:100-116). */
    method BuildLeftRightSkirt()
      requires Valid() && rows >= 1
      requires idxCnt == 4 * rows * cols + 8 * cols && leftColumn == [] && rightColumn == []
      modifies this`verts, this`idxCnt, this`leftColumn, this`rightColumn
      modifies this`leftTopIdx, this`rightTopIdx, this`leftBottomIdx, this`rightBottomIdx
      ensures Valid()
      ensures verts == old(verts) + Concat(LeftRightCells(rows, cols))
      ensures idxCnt == VertexCount(rows, cols)
      ensures leftColumn == LeftColumn(rows, cols) && rightColumn == RightColumn(rows, cols)
      ensures leftTopIdx == 4 * rows * cols + 8 * cols && rightTopIdx == 4 * rows * cols + 8 * cols + 4
      ensures rightBottomIdx == VertexCount(rows, cols) - 1 && leftBottomIdx == VertexCount(rows, cols) - 5
      ensures BaseFaces(leftTopIdx, rightTopIdx, leftBottomIdx, rightBottomIdx) == ClosingFaces(rows, cols)
    {
      leftTopIdx := idxCnt;
      rightTopIdx := idxCnt + 4;
      BuildSideColumns();
      rightBottomIdx := idxCnt - 1;
      leftBottomIdx := idxCnt - 5;
    }

    /** Per row, a zero-height skirt pillar at column -1 and one at column
        `cols` (imgToMesh.py:104-114). */
    method BuildSideColumns()
      requires Valid() && leftColumn == [] && rightColumn == []
      requires idxCnt == 4 * rows * cols + 8 * cols
      modifies this`verts, this`idxCnt, this`leftColumn, this`rightColumn
      ensures Valid()
      ensures verts == old(verts) + Concat(LeftRightCells(rows, cols))
      ensures idxCnt == old(idxCnt) + 8 * rows
      ensures leftColumn == LeftColumn(rows, cols) && rightColumn == RightColumn(rows, cols)
    {
      for i := 0 to rows
        invariant Valid() && SkirtDone(LeftRightCells(rows, cols), old(verts), old(idxCnt), i, leftColumn, rightColumn)
      {
        AddLeftRightCell(i, old(verts), old(idxCnt));
      }
    }

    /** The left and right skirt pillars of row i (imgToMesh.py:102-114). */
    method AddLeftRightCell(i: nat, ghost v0: seq<Vertex>, ghost base: nat)
      requires Valid() && i < rows && SkirtDone(LeftRightCells(rows, cols), v0, base, i, leftColumn, rightColumn)
      modifies this`verts, this`idxCnt, this`leftColumn, this`rightColumn
      ensures Valid() && SkirtDone(LeftRightCells(rows, cols), v0, base, i + 1, leftColumn, rightColumn)
    {
      var newLeftPilar, newRightPilar := AddSkirtPair(i, -1, i, cols);
      leftColumn := leftColumn + [newLeftPilar];
      rightColumn := rightColumn + [newRightPilar];
      SkirtRunStep(base, 0, i);
      SkirtRunStep(base, 4, i);
      ConcatExtend(v0, LeftRightCells(rows, cols), i);
    }

    /** Per column, the wall from the top skirt to the first grid row and the
        wall from the last grid row to the bottom skirt (imgToMesh.py:118-124). */
    method AddTopBottomSkirtWalls()
      requires Valid() && rows >= 1 && IsGrid(pilars, rows, cols) && GridBelow(pilars, |verts|)
      requires |topRow| == cols && |bottomRow| == cols
      requires RowBelow(topRow, |verts|) && RowBelow(bottomRow, |verts|)
      modifies this`faces, this`stamps
      ensures Valid()
      ensures faces == old(faces) + Concat(TopBottomWallCells(pilars, cols, topRow, bottomRow))
    {
      for j := 0 to cols
        invariant Valid() && FacesAfter(old(faces), TopBottomWallCells(pilars, cols, topRow, bottomRow), j)
      {
        AddTopBottomWallCell(j, old(faces));
      }
    }

    /** The two skirt walls of column j (imgToMesh.py:119-124). */
    method AddTopBottomWallCell(j: nat, ghost f0: seq<Face>)
      requires Valid() && rows >= 1 && IsGrid(pilars, rows, cols) && GridBelow(pilars, |verts|) && j < cols
      requires |topRow| == cols && |bottomRow| == cols
      requires RowBelow(topRow, |verts|) && RowBelow(bottomRow, |verts|)
      requires FacesAfter(f0, TopBottomWallCells(pilars, cols, topRow, bottomRow), j)
      modifies this`faces, this`stamps
      ensures Valid() && FacesAfter(f0, TopBottomWallCells(pilars, cols, topRow, bottomRow), j + 1)
    {
      assert RowBelow(pilars[0], |verts|) && RowBelow(pilars[rows - 1], |verts|);
      WallsBelow(topRow[j], pilars[0][j], |verts|);
      WallsBelow(pilars[rows - 1][j], bottomRow[j], |verts|);
      AddFacePairs(HorizontalWall(topRow[j], pilars[0][j]), HorizontalWall(pilars[rows - 1][j], bottomRow[j]));
      ConcatExtend(f0, TopBottomWallCells(pilars, cols, topRow, bottomRow), j);
    }

    /** Per row, the wall from the left skirt to the first grid column and the
        wall from the last grid column to the right skirt (imgToMesh.py:126-132). */
    method AddLeftRightSkirtWalls()
      requires Valid() && cols >= 1 && IsGrid(pilars, rows, cols) && GridBelow(pilars, |verts|)
      requires |leftColumn| == rows && |rightColumn| == rows
      requires RowBelow(leftColumn, |verts|) && RowBelow(rightColumn, |verts|)
      modifies this`faces, this`stamps
      ensures Valid()
      ensures faces == old(faces) + Concat(LeftRightWallCells(pilars, cols, leftColumn, rightColumn))
    {
      for i := 0 to rows
        invariant Valid() && FacesAfter(old(faces), LeftRightWallCells(pilars, cols, leftColumn, rightColumn), i)
      {
        AddLeftRightWallCell(i, old(faces));
      }
    }

    /** The two skirt walls of row i (imgToMesh.py:127-132). */
    method AddLeftRightWallCell(i: nat, ghost f0: seq<Face>)
      requires Valid() && cols >= 1 && IsGrid(pilars, rows, cols) && GridBelow(pilars, |verts|) && i < rows
      requires |leftColumn| == rows && |rightColumn| == rows
      requires RowBelow(leftColumn, |verts|) && RowBelow(rightColumn, |verts|)
      requires FacesAfter(f0, LeftRightWallCells(pilars, cols, leftColumn, rightColumn), i)
      modifies this`faces, this`stamps
      ensures Valid() && FacesAfter(f0, LeftRightWallCells(pilars, cols, leftColumn, rightColumn), i + 1)
    {
      assert RowBelow(pilars[i], |verts|);
      WallsBelow(leftColumn[i], pilars[i][0], |verts|);
      WallsBelow(pilars[i][cols - 1], rightColumn[i], |verts|);
      AddFacePairs(VerticalWall(leftColumn[i], pilars[i][0]), VerticalWall(pilars[i][cols - 1], rightColumn[i]));
      ConcatExtend(f0, LeftRightWallCells(pilars, cols, leftColumn, rightColumn), i);
    }

    /** The two triangles closing the base (imgToMesh.py:134-135). */
    method CloseBase()
      requires Valid()
      requires leftTopIdx < |verts| && rightTopIdx < |verts| && leftBottomIdx < |verts| && rightBottomIdx < |verts|
      modifies this`faces, this`stamps
      ensures Valid()
      ensures faces == old(faces) + BaseFaces(leftTopIdx, rightTopIdx, leftBottomIdx, rightBottomIdx)
    {
      AddFaces((Face(leftTopIdx, leftBottomIdx, rightBottomIdx), Face(leftTopIdx, rightTopIdx, rightBottomIdx)));
    }
  }

  /** Runs the builder's blocks in the order of imgToMesh.py:58-135 on an image
      of `rows` rows and `cols` columns of gray values. The result is the
      reference mesh, and every face refers only to vertices that already
      exist when it is appended: the two top triangles of grid pillar k
      (faces 2 * k and 2 * k + 1) to the 4 * k + 4 vertices made up to that
      pillar, the faces of the grid blocks to the 4 * rows * cols grid
      vertices, and every face to the vertex list. */
  method BuildMesh(img: seq<seq<int>>, rows: nat, cols: nat, maxHeight: int)
    returns (verts: seq<Vertex>, faces: seq<Face>)
    requires rows >= 1 && cols >= 1 && IsImage(img, rows, cols)
    ensures verts == ExpectedVertices(img, maxHeight, rows, cols)
    ensures faces == ExpectedFaces(img, maxHeight, rows, cols)
    ensures forall m :: 0 <= m < |TopFaces(GridPilars(img, maxHeight, cols))| ==>
      m < |faces| && FaceBelow(faces[m], 4 * (m / 2) + 4)
    ensures forall m :: 0 <= m < |InteriorFaces(GridPilars(img, maxHeight, cols), cols)| ==>
      m < |faces| && FaceBelow(faces[m], 4 * rows * cols)
    ensures forall m :: 0 <= m < |faces| ==> FaceBelow(faces[m], |verts|)
  {
    var b := new MeshBuilder(rows, cols);
    b.BuildInterior(img, maxHeight);
    b.BuildSkirt();
    verts, faces := b.verts, b.faces;
    MeshTopFacesBelow(img, maxHeight, rows, cols);
    MeshGridFacesBelow(img, maxHeight, rows, cols);
  }

  lemma RowStep(i: nat, cols: nat)
    ensures 4 * (i * cols + cols) == 4 * ((i + 1) * cols)
  {
  }
}
