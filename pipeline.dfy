/** The script from the resized gray image to the lines of the .obj file:
    the builder's blocks, then the writer (imgToMesh.py:58-143). */
module Pipeline {
  import opened Layout
  import opened Builder
  import opened ObjWriter

  /** The .obj lines for an image of `rows` rows and `cols` columns of gray
      values. The file reads back as the reference mesh; it has one line per
      vertex and one per face, in the closed-form counts; and every face line
      names only vertex numbers from 1 to the vertex count. */
  method ImageToObj(img: seq<seq<int>>, rows: nat, cols: nat, maxHeight: int) returns (lines: seq<ObjLine>)
    requires rows >= 1 && cols >= 1 && IsImage(img, rows, cols)
    ensures ReadObj(lines) == Some((ExpectedVertices(img, maxHeight, rows, cols), ExpectedFaces(img, maxHeight, rows, cols)))
    ensures |lines| == VertexCount(rows, cols)
      + (2 * rows * cols + 2 * (rows - 1) * cols + 2 * rows * (cols - 1) + 4 * cols + 4 * rows + 2)
    ensures forall n :: VertexCount(rows, cols) <= n < |lines| ==>
      lines[n].FaceLine? && 1 <= lines[n].a <= VertexCount(rows, cols)
      && 1 <= lines[n].b <= VertexCount(rows, cols) && 1 <= lines[n].c <= VertexCount(rows, cols)
  {
    var verts, faces := BuildMesh(img, rows, cols, maxHeight);
    lines := WriteObj(verts, faces);
    ReadWritten(verts, faces);
    ObjLayout(verts, faces);
    FaceNumbersInRange(verts, faces);
    ExpectedVerticesLength(img, maxHeight, rows, cols);
    FaceCount(GridPilars(img, maxHeight, cols), rows, cols);
  }
}
