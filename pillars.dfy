/** The building blocks of the mesh: vertices, index triangles, pillars and the
    helpers that turn pillars into triangles (imgToMesh.py:17-44). */
module Pillars {

  /** A mesh vertex. `x` is the row position and `y` the column position on the
      integer grid; `z` is the height. */
  datatype Vertex = Vertex(x: int, y: int, z: real)

  /** A triangle given by three 0-based indices into the vertex list. */
  datatype Face = Face(a: nat, b: nat, c: nat)

  /** A pillar: a height and the indices of its four top corners. */
  datatype Pilar = Pilar(zVal: real, leftTopIdx: nat, rightTopIdx: nat, leftBottomIdx: nat, rightBottomIdx: nat)

  /** The set of indices a triangle refers to. */
  function Indices(f: Face): set<nat>
  {
    {f.a, f.b, f.c}
  }

  /** The set of a pillar's four corner indices. */
  function Corners(p: Pilar): set<nat>
  {
    {p.leftTopIdx, p.rightTopIdx, p.leftBottomIdx, p.rightBottomIdx}
  }

  /** Every index of `f` is below `n`, i.e. names one of the first `n` vertices. */
  predicate FaceBelow(f: Face, n: int)
  {
    f.a < n && f.b < n && f.c < n
  }

  /** Every corner index of `p` is below `n`. */
  predicate PilarBelow(p: Pilar, n: nat)
  {
    p.leftTopIdx < n && p.rightTopIdx < n && p.leftBottomIdx < n && p.rightBottomIdx < n
  }

  /** The height of a grid pillar: the pixel value scaled from 0..255 to
      0..maxHeight. Heights are exact reals here, not floating point. */
  function Height(pixel: int, maxHeight: int): (h: real)
    ensures pixel == 0 ==> h == 0.0
    ensures pixel == 255 ==> h == maxHeight as real
    ensures 0 <= pixel <= 255 && 0 <= maxHeight ==> 0.0 <= h <= maxHeight as real
  {
    var frac := pixel as real / 255.0;
    var top := maxHeight as real;
    assert 0 <= pixel <= 255 && 0 <= maxHeight ==> 0.0 <= frac * top <= top by {
      if 0 <= pixel <= 255 && 0 <= maxHeight {
        ScaleBounds(frac, top);
      }
    }
    frac * top
  }

  lemma ScaleBounds(frac: real, top: real)
    requires 0.0 <= frac <= 1.0 && 0.0 <= top
    ensures 0.0 <= frac * top <= top
  {
    assert top - frac * top == (1.0 - frac) * top;
  }

  /** The four top corners of the unit square with corner (x, y), at height z.
      Corner c is offset by c % 2 along the row axis and by c / 2 along the
      column axis: leftTop, rightTop, leftBottom, rightBottom. */
  function GenerateFourCorners(x: int, y: int, z: real): (corners: seq<Vertex>)
    ensures |corners| == 4
    ensures forall c :: 0 <= c < 4 ==> corners[c] == Vertex(x + c % 2, y + c / 2, z)
    ensures forall c, d :: 0 <= c < d < 4 ==> corners[c] != corners[d]
  {
    [Vertex(x, y, z), Vertex(x + 1, y, z), Vertex(x, y + 1, z), Vertex(x + 1, y + 1, z)]
  }

  /** The pillar whose four corners were appended starting at index `base`. */
  function PilarFrom(z: real, base: nat): Pilar
  {
    Pilar(z, base, base + 1, base + 2, base + 3)
  }

  /** Pillar `p` stands on the unit square with corner (x, y): each of its corner
      indices names the matching corner of that square, at the pillar's height. */
  ghost predicate Placed(verts: seq<Vertex>, p: Pilar, x: int, y: int)
  {
    PilarBelow(p, |verts|) &&
    verts[p.leftTopIdx] == Vertex(x, y, p.zVal) &&
    verts[p.rightTopIdx] == Vertex(x + 1, y, p.zVal) &&
    verts[p.leftBottomIdx] == Vertex(x, y + 1, p.zVal) &&
    verts[p.rightBottomIdx] == Vertex(x + 1, y + 1, p.zVal)
  }

  /** The two triangles covering a pillar's top. Together they use exactly the
      pillar's four corners, and both contain the diagonal rightTop-leftBottom. */
  function TopFace(p: Pilar): (tris: (Face, Face))
    ensures WallIndices(tris) == Corners(p)
    ensures {p.rightTopIdx, p.leftBottomIdx} <= Indices(tris.0) * Indices(tris.1)
  {
    (Face(p.leftTopIdx, p.rightTopIdx, p.leftBottomIdx), Face(p.rightTopIdx, p.rightBottomIdx, p.leftBottomIdx))
  }

  /** The wall between a pillar and the next one along the row axis: two
      triangles over the left pillar's right edge and the right pillar's left
      edge, sharing the diagonal from left.rightTop to right.leftBottom. */
  function HorizontalWall(left: Pilar, right: Pilar): (tris: (Face, Face))
    ensures WallIndices(tris) == {left.rightTopIdx, left.rightBottomIdx, right.leftTopIdx, right.leftBottomIdx}
    ensures {left.rightTopIdx, right.leftBottomIdx} <= Indices(tris.0) * Indices(tris.1)
  {
    (Face(left.rightTopIdx, left.rightBottomIdx, right.leftBottomIdx),
     Face(left.rightTopIdx, right.leftTopIdx, right.leftBottomIdx))
  }

  /** The wall between a pillar and the next one along the column axis: two
      triangles over the upper pillar's bottom edge and the lower pillar's top
      edge, sharing the diagonal from upper.rightBottom to bottom.leftTop. */
  function VerticalWall(upper: Pilar, bottom: Pilar): (tris: (Face, Face))
    ensures WallIndices(tris) == {upper.leftBottomIdx, upper.rightBottomIdx, bottom.leftTopIdx, bottom.rightTopIdx}
    ensures {upper.rightBottomIdx, bottom.leftTopIdx} <= Indices(tris.0) * Indices(tris.1)
  {
    (Face(upper.leftBottomIdx, upper.rightBottomIdx, bottom.leftTopIdx),
     Face(upper.rightBottomIdx, bottom.rightTopIdx, bottom.leftTopIdx))
  }

  /** A pillar's top triangles refer only to vertices that already exist when
      its corners do. */
  lemma TopFaceBelow(p: Pilar, n: nat)
    requires PilarBelow(p, n)
    ensures FaceBelow(TopFace(p).0, n) && FaceBelow(TopFace(p).1, n)
  {
  }

  /** A wall refers only to vertices that already exist when both pillars' do. */
  lemma WallsBelow(p: Pilar, q: Pilar, n: nat)
    requires PilarBelow(p, n) && PilarBelow(q, n)
    ensures FaceBelow(HorizontalWall(p, q).0, n) && FaceBelow(HorizontalWall(p, q).1, n)
    ensures FaceBelow(VerticalWall(p, q).0, n) && FaceBelow(VerticalWall(p, q).1, n)
  {
  }

  /** The indices used by the two triangles of a top face or a wall. */
  function WallIndices(tris: (Face, Face)): set<nat>
  {
    Indices(tris.0) + Indices(tris.1)
  }

  /** Every vertex the two triangles use lies on the grid line of row
      coordinate `x`, on the unit edge from column `y` to `y + 1`. */
  ghost predicate OnRowLine(verts: seq<Vertex>, tris: (Face, Face), x: int, y: int)
  {
    forall v :: v in WallIndices(tris) ==> v < |verts| && verts[v].x == x && y <= verts[v].y <= y + 1
  }

  /** Every vertex the two triangles use lies on the grid line of column
      coordinate `y`, on the unit edge from row `x` to `x + 1`. */
  ghost predicate OnColumnLine(verts: seq<Vertex>, tris: (Face, Face), x: int, y: int)
  {
    forall v :: v in WallIndices(tris) ==> v < |verts| && verts[v].y == y && x <= verts[v].x <= x + 1
  }

  /** The top of a placed pillar lies in its own unit square at its own height. */
  lemma TopFaceInCell(verts: seq<Vertex>, p: Pilar, x: int, y: int)
    requires Placed(verts, p, x, y)
    ensures forall v :: v in WallIndices(TopFace(p)) ==>
      v < |verts| && x <= verts[v].x <= x + 1 && y <= verts[v].y <= y + 1 && verts[v].z == p.zVal
  {
  }

  /** A horizontal wall between pillars placed at rows x and x + 1 of the same
      column y stands on the grid line between them, spanning the shared edge
      from one pillar's height to the other's. */
  lemma HorizontalWallOnLine(verts: seq<Vertex>, left: Pilar, right: Pilar, x: int, y: int)
    requires Placed(verts, left, x, y) && Placed(verts, right, x + 1, y)
    ensures OnRowLine(verts, HorizontalWall(left, right), x + 1, y)
    ensures forall v :: v in WallIndices(HorizontalWall(left, right)) ==>
      verts[v].z == left.zVal || verts[v].z == right.zVal
  {
  }

  /** A vertical wall between pillars placed at columns y and y + 1 of the same
      row x stands on the grid line between them, spanning the shared edge from
      one pillar's height to the other's. */
  lemma VerticalWallOnLine(verts: seq<Vertex>, upper: Pilar, bottom: Pilar, x: int, y: int)
    requires Placed(verts, upper, x, y) && Placed(verts, bottom, x, y + 1)
    ensures OnColumnLine(verts, VerticalWall(upper, bottom), x, y + 1)
    ensures forall v :: v in WallIndices(VerticalWall(upper, bottom)) ==>
      verts[v].z == upper.zVal || verts[v].z == bottom.zVal
  {
  }
}
