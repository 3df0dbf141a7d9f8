/** The .obj writer of imgToMesh.py:137-143: every vertex as a "v" line, in
    list order, then every face as an "f" line whose three vertex numbers are
    the stored 0-based indices plus 1. Lines are kept as records; the decimal
    text of the numbers is not modelled. */
module ObjWriter {
  import opened Pillars

  datatype Option<T> = None | Some(value: T)

  /** One line of an .obj file: a vertex with its coordinates, or a face with
      three 1-based vertex numbers. */
  datatype ObjLine = VertexLine(x: int, y: int, z: real) | FaceLine(a: int, b: int, c: int)

  /** The "v" line written for a vertex (imgToMesh.py:139). */
  function VertexLineOf(v: Vertex): ObjLine
  {
    VertexLine(v.x, v.y, v.z)
  }

  /** The "f" line written for a face: indices shifted to 1-based numbering
      (imgToMesh.py:142). */
  function FaceLineOf(f: Face): ObjLine
  {
    FaceLine(f.a + 1, f.b + 1, f.c + 1)
  }

  function VertexLines(verts: seq<Vertex>): seq<ObjLine>
  {
    seq(|verts|, n requires 0 <= n < |verts| => VertexLineOf(verts[n]))
  }

  function FaceLines(faces: seq<Face>): seq<ObjLine>
  {
    seq(|faces|, n requires 0 <= n < |faces| => FaceLineOf(faces[n]))
  }

  /** The whole file: the vertex lines, then the face lines. */
  function ObjLines(verts: seq<Vertex>, faces: seq<Face>): seq<ObjLine>
  {
    VertexLines(verts) + FaceLines(faces)
  }

  /** Writes the vertex lines and then the face lines, one line per loop
      iteration (imgToMesh.py:137-143). */
  method WriteObj(verts: seq<Vertex>, faces: seq<Face>) returns (lines: seq<ObjLine>)
    ensures lines == ObjLines(verts, faces)
  {
    lines := [];
    for k := 0 to |verts|
      invariant |lines| == k
      invariant forall n :: 0 <= n < k ==> lines[n] == VertexLineOf(verts[n])
    {
      lines := lines + [VertexLineOf(verts[k])];
    }
    for k := 0 to |faces|
      invariant |lines| == |verts| + k
      invariant forall n :: 0 <= n < |verts| ==> lines[n] == VertexLineOf(verts[n])
      invariant forall n :: 0 <= n < k ==> lines[|verts| + n] == FaceLineOf(faces[n])
    {
      lines := lines + [FaceLineOf(faces[k])];
    }
  }

  // ------------------------------------------------------------------ reader

  /** The leading vertex lines read back as vertices, and the lines after them. */
  function ReadVertices(lines: seq<ObjLine>): (seq<Vertex>, seq<ObjLine>)
  {
    if |lines| > 0 && lines[0].VertexLine? then
      var (vs, rest) := ReadVertices(lines[1..]);
      ([Vertex(lines[0].x, lines[0].y, lines[0].z)] + vs, rest)
    else
      ([], lines)
  }

  /** Face lines read back as 0-based faces; None for a line that is not a
      face line or that names a vertex number below 1. */
  function ReadFaces(lines: seq<ObjLine>): Option<seq<Face>>
  {
    if |lines| == 0 then Some([])
    else
      var line := lines[0];
      if line.VertexLine? || line.a < 1 || line.b < 1 || line.c < 1 then None
      else
        match ReadFaces(lines[1..])
        case None => None
        case Some(fs) => Some([Face(line.a - 1, line.b - 1, line.c - 1)] + fs)
  }

  /** The vertices and faces of a file laid out as the writer lays it out:
      vertex lines first, then face lines with numbers from 1. */
  function ReadObj(lines: seq<ObjLine>): Option<(seq<Vertex>, seq<Face>)>
  {
    var (vs, rest) := ReadVertices(lines);
    match ReadFaces(rest)
    case None => None
    case Some(fs) => Some((vs, fs))
  }

  // ------------------------------------------------------------------ lemmas

  /** The file has one line per vertex and one per face; lines before
      |verts| are vertex lines carrying the vertices in order, the rest are
      face lines carrying the faces in order, shifted by 1. */
  lemma ObjLayout(verts: seq<Vertex>, faces: seq<Face>)
    ensures |ObjLines(verts, faces)| == |verts| + |faces|
    ensures forall n :: 0 <= n < |verts| ==>
      ObjLines(verts, faces)[n] == VertexLine(verts[n].x, verts[n].y, verts[n].z)
    ensures forall n :: 0 <= n < |faces| ==>
      ObjLines(verts, faces)[|verts| + n] == FaceLine(faces[n].a + 1, faces[n].b + 1, faces[n].c + 1)
  {
  }

  /** When every face refers to an existing vertex, every face line names
      vertex numbers from 1 to the number of vertex lines, i.e. only vertex
      lines that come before it in the file. */
  lemma FaceNumbersInRange(verts: seq<Vertex>, faces: seq<Face>)
    requires forall m :: 0 <= m < |faces| ==> FaceBelow(faces[m], |verts|)
    ensures forall n :: |verts| <= n < |ObjLines(verts, faces)| ==>
      var line := ObjLines(verts, faces)[n];
      line.FaceLine? && 1 <= line.a <= |verts| && 1 <= line.b <= |verts| && 1 <= line.c <= |verts|
  {
    var lines := ObjLines(verts, faces);
    forall n | |verts| <= n < |lines|
      ensures lines[n].FaceLine?
      ensures 1 <= lines[n].a <= |verts| && 1 <= lines[n].b <= |verts| && 1 <= lines[n].c <= |verts|
    {
      assert lines[n] == FaceLineOf(faces[n - |verts|]);
    }
  }

  /** Reading back what the writer wrote gives the vertices and faces it was
      given. */
  lemma ReadWritten(verts: seq<Vertex>, faces: seq<Face>)
    ensures ReadObj(ObjLines(verts, faces)) == Some((verts, faces))
  {
    ReadVertexLines(verts, FaceLines(faces));
    ReadFaceLines(faces);
  }

  lemma {:induction false} ReadVertexLines(verts: seq<Vertex>, rest: seq<ObjLine>)
    requires |rest| > 0 ==> rest[0].FaceLine?
    ensures ReadVertices(VertexLines(verts) + rest) == (verts, rest)
  {
    if |verts| > 0 {
      var lines := VertexLines(verts) + rest;
      ReadVertexLines(verts[1..], rest);
      assert lines[0] == VertexLineOf(verts[0]);
      assert lines[1..] == VertexLines(verts[1..]) + rest;
      assert verts == [Vertex(lines[0].x, lines[0].y, lines[0].z)] + verts[1..];
    } else {
      assert VertexLines(verts) + rest == rest;
    }
  }

  lemma {:induction false} ReadFaceLines(faces: seq<Face>)
    ensures ReadFaces(FaceLines(faces)) == Some(faces)
  {
    if |faces| > 0 {
      ReadFaceLines(faces[1..]);
      assert FaceLines(faces)[1..] == FaceLines(faces[1..]);
      assert faces == [faces[0]] + faces[1..];
    }
  }

  /** The reader accepts only files laid out by the writer: whatever it reads
      back writes out to the same lines. */
  lemma ReadOnlyWritten(lines: seq<ObjLine>, verts: seq<Vertex>, faces: seq<Face>)
    requires ReadObj(lines) == Some((verts, faces))
    ensures ObjLines(verts, faces) == lines
  {
    var (vs, rest) := ReadVertices(lines);
    VerticesRead(lines);
    FacesRead(rest, faces);
  }

  lemma {:induction false} VerticesRead(lines: seq<ObjLine>)
    ensures VertexLines(ReadVertices(lines).0) + ReadVertices(lines).1 == lines
    ensures |ReadVertices(lines).1| > 0 ==> ReadVertices(lines).1[0].FaceLine?
  {
    if |lines| > 0 && lines[0].VertexLine? {
      var tail := ReadVertices(lines[1..]);
      VerticesRead(lines[1..]);
      var v := Vertex(lines[0].x, lines[0].y, lines[0].z);
      assert ReadVertices(lines) == ([v] + tail.0, tail.1);
      VertexLinesCons(v, tail.0);
      assert VertexLineOf(v) == lines[0];
      assert lines == [lines[0]] + lines[1..];
    }
  }

  lemma VertexLinesCons(v: Vertex, vs: seq<Vertex>)
    ensures VertexLines([v] + vs) == [VertexLineOf(v)] + VertexLines(vs)
  {
  }

  lemma {:induction false} FacesRead(lines: seq<ObjLine>, faces: seq<Face>)
    requires ReadFaces(lines) == Some(faces)
    ensures FaceLines(faces) == lines
  {
    if |lines| > 0 {
      var line := lines[0];
      var fs := ReadFaces(lines[1..]).value;
      FacesRead(lines[1..], fs);
      assert faces == [Face(line.a - 1, line.b - 1, line.c - 1)] + fs;
      assert FaceLines(faces) == [line] + FaceLines(fs);
      assert lines == [line] + lines[1..];
    }
  }
}
