# imgToMesh pillar mesh, modelled in Dafny

`imgToMesh.py` turns a grayscale image into a 3D `.obj` mesh. It resizes the
image to a grid of `rows` x `cols` pixels. Each pixel becomes a unit-footprint
"pillar" whose height is the pixel value scaled to `0..maxHeight`. The script
then appends, in a fixed order:

- the four top corners of every pillar to one vertex list, with a counter
  `idxCnt` handing out vertex indices;
- two top triangles per pillar;
- walls between neighbouring pillars;
- a skirt: a ring of zero-height pillars around the grid (a top and a bottom
  row, then a left and a right column), walls joining the skirt to the grid
  border, and two triangles closing the base.

Finally it writes every vertex as a `v` line and every triangle as an `f` line
with 1-based vertex numbers.

The model has five modules:

- `Seqs` (`seqs.dfy`): concatenation of a sequence of chunks, with lemmas for
  its length, the position of each element, and membership. Every list the
  builder grows is such a concatenation, one chunk per loop iteration.
- `Pillars` (`pillars.dfy`): vertices, index triangles and pillars as
  datatypes, plus the pure helpers `generateFourCorners`, `Pilar.getTopFace`,
  `getHorizontalWall`, `getVerticalWall` and the height scaling.
- `Layout` (`layout.dfy`): a closed-form reference definition of the finished
  mesh: the whole vertex list, the grid of pillars, the four skirt lists and
  the whole face list. Its lemmas cover where each pillar's vertices sit, the
  vertex and face counts, walls lying on grid lines, the vertices each block's
  faces may refer to, heights, and the base corners.
- `Builder` (`builder.dfy`): the script's module-level state as the class
  `MeshBuilder`. Its fields are the vertex list, the face list, `idxCnt`, the
  pillar grid, the four skirt lists and the four remembered base indices. It
  has one method per loop block, and each loop body is a method of its own.
  - Every method is proved against the `Layout` definition.
  - Every method keeps the invariant that `idxCnt` equals the number of
    vertices, and that each face refers only to vertices that existed when it
    was appended. A ghost list records, per face, the vertex count at that
    moment.
- `ObjWriter` (`writer.dfy`) and `Pipeline` (`pipeline.dfy`): the writer loop
  producing line records, a reader that inverts it, and the whole script from
  image to lines.

Counts and indices as the script computes them:

- There are `4*rows*cols + 8*cols + 8*rows` vertices: each skirt iteration
  appends two pillars of four vertices (imgToMesh.py:88-98, 104-114).
- The second top triangle is `(rightTop, rightBottom, leftBottom)`
  (imgToMesh.py:27).
- `leftBottomIdx` is `idxCnt - 5`, the last corner of the last left skirt
  pillar, and `rightBottomIdx` is `idxCnt - 1`, the last corner of the last
  right skirt pillar (imgToMesh.py:115-116).
  - The base therefore closes the quadrilateral (0, -1), (0, cols),
    (rows, 0), (rows, cols + 1) at height 0, which is not the outline of the
    skirt. The model reproduces this; `Layout.BaseQuadCorners` states it.

## Model

| member | source | states |
|---|---|---|
| Pillars.GenerateFourCorners | imgToMesh.py:43-44 | exactly four vertices, corner c at (x + c % 2, y + c / 2), i.e. (x,y), (x+1,y), (x,y+1), (x+1,y+1) in that order, pairwise distinct, all at height z |
| Pillars.Height | imgToMesh.py:61 | pixel 0 gives height 0, pixel 255 gives maxHeight, and a pixel in 0..255 with maxHeight >= 0 gives a height within [0, maxHeight] |
| Pillars.TopFace | imgToMesh.py:26-27 | the two top triangles use exactly the pillar's four corner indices and share the diagonal rightTop-leftBottom |
| Pillars.HorizontalWall | imgToMesh.py:29-34 | the two triangles use exactly the left pillar's rightTop/rightBottom and the right pillar's leftTop/leftBottom, sharing the diagonal left.rightTop-right.leftBottom |
| Pillars.VerticalWall | imgToMesh.py:36-41 | the two triangles use exactly the upper pillar's leftBottom/rightBottom and the lower pillar's leftTop/rightTop, sharing the diagonal upper.rightBottom-bottom.leftTop |
| Pillars.TopFaceInCell | imgToMesh.py:26-27 | a placed pillar's top triangles use only vertices of its own unit square, at its own height |
| Pillars.HorizontalWallOnLine | imgToMesh.py:29-34 | a wall between pillars placed at rows x and x+1 uses only vertices on the row line x+1, at one of the two pillars' heights |
| Pillars.VerticalWallOnLine | imgToMesh.py:36-41 | a wall between pillars placed at columns y and y+1 uses only vertices on the column line y+1, at one of the two pillars' heights |
| Pillars.TopFaceBelow | imgToMesh.py:67-69 | a pillar's top triangles refer only to indices below any bound its corners are below |
| Pillars.WallsBelow | imgToMesh.py:75-84 | a wall refers only to indices below any bound both pillars' corners are below |
| Layout.GridVertexAt | imgToMesh.py:58-63 | vertex 4(i*cols+j)+c of the grid vertices is corner c of cell (i, j) at the height scaled from pixel (i, j) |
| Layout.GridPilarPlaced | imgToMesh.py:58-65 | grid pillar (i, j) has the pixel's height and owns indices 4(i*cols+j)+0..3, naming the corners (i,j), (i+1,j), (i,j+1), (i+1,j+1) of its cell in the final vertex list |
| Layout.GridPilarsBelow | imgToMesh.py:58-65 | every grid pillar refers only to the first 4*rows*cols vertices |
| Layout.GridVerticesLength | imgToMesh.py:58-65 | the grid blocks append 4*rows*cols vertices |
| Layout.TopBottomVertexAt | imgToMesh.py:88-98 | vertex 4*rows*cols + 8j + c is entry c of the two pillars made for column j of the top/bottom skirt |
| Layout.LeftRightVertexAt | imgToMesh.py:104-114 | vertex 4*rows*cols + 8*cols + 8i + c is entry c of the two pillars made for row i of the left/right skirt |
| Layout.SkirtRowsPlaced | imgToMesh.py:88-98 | top skirt pillar j stands on cell (-1, j) and bottom skirt pillar j on cell (rows, j), both at height 0 |
| Layout.SkirtColumnsPlaced | imgToMesh.py:104-114 | left skirt pillar i stands on cell (i, -1) and right skirt pillar i on cell (i, cols), both at height 0 |
| Layout.ExpectedVerticesLength | imgToMesh.py:58-114 | the final vertex list has 4*rows*cols + 8*cols + 8*rows vertices |
| Layout.InteriorHorizontalWallOnLine | imgToMesh.py:73-77 | the wall between grid pillars (i, j) and (i+1, j) uses only vertices on row line i+1 along the edge from column j to j+1 |
| Layout.InteriorVerticalWallOnLine | imgToMesh.py:80-84 | the wall between grid pillars (i, j) and (i, j+1) uses only vertices on column line j+1 along the edge from row i to i+1 |
| Layout.SkirtRowWallsOnLine | imgToMesh.py:118-124 | in column j, the top skirt wall lies on row line 0 and the bottom skirt wall on row line rows |
| Layout.SkirtColumnWallsOnLine | imgToMesh.py:126-132 | in row i, the left skirt wall lies on column line 0 and the right skirt wall on column line cols |
| Layout.TopFacesLength | imgToMesh.py:67-69 | two top triangles per grid pillar: 2*rows*cols |
| Layout.InteriorHorizontalWallsLength | imgToMesh.py:73-77 | 2*(rows-1)*cols interior horizontal wall triangles |
| Layout.InteriorVerticalWallsLength | imgToMesh.py:80-84 | 2*rows*(cols-1) interior vertical wall triangles |
| Layout.FaceCount | imgToMesh.py:58-135 | the face list has 2RC + 2(R-1)C + 2R(C-1) + 4C + 4R + 2 triangles |
| Layout.TopFaceAt | imgToMesh.py:58-69 | faces 2(i*cols+j) and 2(i*cols+j)+1 of the top faces are the two top triangles of grid pillar (i, j) |
| Layout.TopFacesAppendedBelow | imgToMesh.py:58-69 | top triangle m refers only to the first 4*(m/2)+4 vertices, the ones made up to its own pillar |
| Layout.TopFacesBelow | imgToMesh.py:67-69 | every top triangle refers only to indices below a bound all grid pillars are below |
| Layout.HorizontalWallsBelow | imgToMesh.py:73-77 | every interior horizontal wall triangle refers only to indices below a bound all grid pillars are below |
| Layout.VerticalWallsBelow | imgToMesh.py:80-84 | every interior vertical wall triangle refers only to indices below a bound all grid pillars are below |
| Layout.InteriorFacesBelow | imgToMesh.py:58-84 | every face of the grid blocks refers only to indices below a bound all grid pillars are below |
| Layout.TopBottomWallsBelow | imgToMesh.py:118-124 | every top/bottom skirt wall triangle refers only to indices below a bound the grid pillars and both skirt rows are below |
| Layout.LeftRightWallsBelow | imgToMesh.py:126-132 | every left/right skirt wall triangle refers only to indices below a bound the grid pillars and both skirt columns are below |
| Layout.SkirtFacesBelow | imgToMesh.py:86-135 | every face of the skirt blocks, base closure included, refers only to the VertexCount(rows, cols) vertices |
| Layout.MeshTopFacesBelow | imgToMesh.py:58-69 | in the mesh, face m of the first 2*rows*cols refers only to the first 4*(m/2)+4 vertices, which exist when the script appends it |
| Layout.MeshGridFacesBelow | imgToMesh.py:58-84 | in the mesh, the faces appended by the grid blocks refer only to the 4*rows*cols grid vertices, the only ones that exist while those blocks run |
| Layout.MeshFacesBelow | imgToMesh.py:58-135 | every face of the mesh refers only to one of its VertexCount(rows, cols) vertices |
| Layout.BaseQuadCorners | imgToMesh.py:100-135 | the four remembered base indices name the vertices (0,-1), (0,cols), (rows,0), (rows,cols+1) at height 0 |
| Layout.GridVertexHeights | imgToMesh.py:61-63 | for 8-bit pixels and maxHeight >= 0, every grid vertex lies between height 0 and maxHeight |
| Layout.SkirtVerticesFlat | imgToMesh.py:86-114 | every skirt vertex is at height 0 |
| Layout.SkirtVertexHeights | imgToMesh.py:86-114 | every vertex after the first 4*rows*cols is at height 0 |
| Layout.VertexHeights | imgToMesh.py:58-114 | for 8-bit pixels and maxHeight >= 0, every vertex lies between height 0 and maxHeight |
| Builder.MeshBuilder.constructor | imgToMesh.py:46-57 | an empty builder: no vertices, faces or pillars, counter 0 |
| Builder.MeshBuilder.AddPilar | imgToMesh.py:62-65 | appends the four corners of the square at (x, y) and height z, moves the counter on by 4 and returns the pillar naming exactly those four new vertices |
| Builder.MeshBuilder.AddFaces | imgToMesh.py:68-69 | appends two triangles that refer only to existing vertices, keeping the invariant |
| Builder.MeshBuilder.AddGridPilar | imgToMesh.py:61-69 | one grid pillar: its four corners, then its two top triangles |
| Builder.MeshBuilder.AddGridCell | imgToMesh.py:60-70 | one iteration of the inner grid loop extends the vertices, counter, row of pillars and faces by exactly cell j's share |
| Builder.MeshBuilder.BuildGridRow | imgToMesh.py:59-71 | row i's vertices, the counter at 4(i*cols+cols), the row's pillars and their top triangles |
| Builder.MeshBuilder.AddGridRow | imgToMesh.py:58-71 | one iteration of the outer grid loop extends the state from i rows to i+1 rows |
| Builder.MeshBuilder.BuildGrid | imgToMesh.py:58-71 | after the grid blocks: the grid vertices (4*rows*cols of them), the grid of pillars and the top faces; every face refers only to earlier vertices |
| Builder.MeshBuilder.AddHorizontalWallCell | imgToMesh.py:75-77 | appends the wall between pillar j of rows i and i+1 |
| Builder.MeshBuilder.AddHorizontalWallRow | imgToMesh.py:74-77 | appends the walls between grid rows i and i+1 in column order |
| Builder.MeshBuilder.AddInteriorHorizontalWalls | imgToMesh.py:73-77 | appends every interior horizontal wall in row-pair order |
| Builder.MeshBuilder.AddVerticalWallCell | imgToMesh.py:82-84 | appends the wall between pillars j and j+1 of row i |
| Builder.MeshBuilder.AddVerticalWallRow | imgToMesh.py:81-84 | appends the walls within grid row i in column order |
| Builder.MeshBuilder.AddInteriorVerticalWalls | imgToMesh.py:80-84 | appends every interior vertical wall in row order |
| Builder.MeshBuilder.BuildInterior | imgToMesh.py:58-84 | after the grid and interior wall blocks: the grid vertices, counter 4*rows*cols, the grid of pillars (all below the vertex count) and the interior faces |
| Builder.MeshBuilder.AddSkirtPair | imgToMesh.py:89-97 | appends two zero-height pillars, 8 vertices, and returns the pillars naming them |
| Builder.MeshBuilder.AddTopBottomCell | imgToMesh.py:88-98 | one top/bottom skirt iteration extends vertices, counter and both skirt rows by column j's share |
| Builder.MeshBuilder.BuildTopBottomSkirt | imgToMesh.py:86-98 | the top/bottom skirt vertices, counter 4*rows*cols + 8*cols, and the top and bottom rows in closed form |
| Builder.MeshBuilder.AddLeftRightCell | imgToMesh.py:104-114 | one left/right skirt iteration extends vertices, counter and both skirt columns by row i's share |
| Builder.MeshBuilder.BuildSideColumns | imgToMesh.py:104-114 | the left/right skirt vertices, counter up by 8*rows, and the left and right columns in closed form |
| Builder.MeshBuilder.BuildLeftRightSkirt | imgToMesh.py:100-116 | the side skirt, the final vertex count, and the base indices 4RC+8C, 4RC+8C+4, total-5, total-1 |
| Builder.MeshBuilder.BuildSkirtPilars | imgToMesh.py:86-116 | all skirt vertices in order, all four skirt lists in closed form and below the vertex count, and the base indices giving the closing triangles |
| Builder.MeshBuilder.AddTopBottomWallCell | imgToMesh.py:119-124 | appends column j's top skirt wall and then its bottom skirt wall |
| Builder.MeshBuilder.AddTopBottomSkirtWalls | imgToMesh.py:118-124 | appends the top and bottom skirt walls column by column |
| Builder.MeshBuilder.AddLeftRightWallCell | imgToMesh.py:127-132 | appends row i's left skirt wall and then its right skirt wall |
| Builder.MeshBuilder.AddLeftRightSkirtWalls | imgToMesh.py:126-132 | appends the left and right skirt walls row by row |
| Builder.MeshBuilder.CloseBase | imgToMesh.py:134-135 | appends (leftTop, leftBottom, rightBottom) and (leftTop, rightTop, rightBottom) |
| Builder.MeshBuilder.BuildSkirtWalls | imgToMesh.py:118-135 | appends the skirt walls and then the base closure |
| Builder.MeshBuilder.BuildSkirt | imgToMesh.py:86-135 | appends the skirt vertices and the skirt faces of the reference mesh, leaves the four skirt lists in closed form, and leaves base indices whose two closing triangles are those of the reference mesh |
| Builder.BuildMesh | imgToMesh.py:46-135 | the vertex and face lists equal the reference mesh; the two top triangles of grid pillar k (faces 2k and 2k+1) refer only to the first 4k+4 vertices, the faces of the grid blocks only to the 4*rows*cols grid vertices, and every face to an existing vertex |
| ObjWriter.WriteObj | imgToMesh.py:137-143 | the lines written are the vertex lines in list order followed by the face lines in list order |
| ObjWriter.ObjLayout | imgToMesh.py:137-143 | one line per vertex and per face; with V vertices, line n < V carries vertex n and line V + n carries face n with every index plus 1 |
| ObjWriter.FaceNumbersInRange | imgToMesh.py:141-143 | when faces refer to existing vertices, every face line names vertex numbers from 1 to the number of vertices |
| ObjWriter.ReadWritten | imgToMesh.py:137-143 | reading back the written lines gives the vertices and faces written |
| ObjWriter.ReadOnlyWritten | imgToMesh.py:137-143 | whatever the reader accepts is exactly what the writer writes for the result |
| Pipeline.ImageToObj | imgToMesh.py:58-143 | the file reads back as the reference mesh, has VertexCount + face-count lines, and every face line names vertex numbers in 1..VertexCount |

## Left out

- Argument parsing (imgToMesh.py:4-15): `rows`, `cols` and `maxHeight` are parameters. `rows` is `target_size[0]` (`-he`) and `cols` is `target_size[1]` (`-wi`).
- Reading, gray conversion and resizing of the image with OpenCV (imgToMesh.py:52-54): the resized gray image is an input `rows` x `cols` sequence of integers; `Layout.IsGray` states the 0..255 range where a lemma needs it.
- Opening and writing the output file (imgToMesh.py:137, 140, 143): the writer returns the list of lines it would write.
- ObjWriter.WriteObj: does not model the decimal text of the lines (`str(float(...))` of the coordinates, `str(...)` of the vertex numbers); a line is a record of the numbers it carries.
- Pillars.Height: uses exact reals for `pixel / 255 * maxHeight`; IEEE floating-point rounding is not modelled.
- `Pilar.getUpperCorners` (imgToMesh.py:24-25): it reads attributes that do not exist and is never called.
- The unused `squareList` and `base_height` (imgToMesh.py:50, 56).
- Triangle winding and normals: the model states which vertices each triangle uses, not its orientation.
- Empty grids: `rows >= 1` and `cols >= 1` are required. With `rows = 0` the script fails at `pilarList[0]` (imgToMesh.py:119) once `cols >= 1`; with `cols = 0` and `rows >= 1` it fails at `pilarList[i][0]` in the left skirt wall (imgToMesh.py:127); with both 0 the base triangles name the indices -5 and -1 (imgToMesh.py:115-116, 134-135).
