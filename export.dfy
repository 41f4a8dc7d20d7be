/**
  The point-cloud and mesh writers of src/vggt_mps/utils/export.py: the
  format dispatch, the PLY headers, one body line per point, the vertex
  index conventions of OBJ (1-based) and PLY (0-based) faces, and the GLB
  fallback to a PLY file next to the requested path.

  Coordinates and colours are rendered with fixed-point float formatting,
  which is not modelled: a vertex line is kept as the (point, colour) it
  renders.
*/
module Export {

  import opened Wrappers
  import opened Text

  datatype Point = Point(x: real, y: real, z: real)
  datatype Color = Color(r: real, g: real, b: real)
  /** Three vertex indices of a face, as the integers of a numpy row. */
  datatype Face = Face(a: int, b: int, c: int)

  /** The two ways a vertex line is rendered. */
  datatype Style =
    | PlyVertex   // "x y z" or "x y z r g b" with integer colour components
    | ObjVertex   // "v x y z" or "v x y z r g b" with colour components divided by 255

  /** A line of an output file (without its newline). */
  datatype Line = Text(s: string) | Vertex(style: Style, p: Point, c: Option<Color>)

  /** Path components; the last one is the file name. */
  type Path = seq<string>

  /** The exceptions the writers raise. */
  datatype ExportError =
    | UnsupportedFormat(format: string)   // ValueError of export_point_cloud
    | IndexError(index: nat)              // colours[i] past the end of the colour array
    | EmptyName                           // ValueError of Path.with_suffix

  function Texts(ss: seq<string>): (ls: seq<Line>)
    ensures |ls| == |ss| && forall i :: 0 <= i < |ss| ==> ls[i] == Text(ss[i])
  {
    seq(|ss|, i requires 0 <= i < |ss| => Text(ss[i]))
  }

  // ---------------------------------------------------------------------
  // Headers
  // ---------------------------------------------------------------------

  const VertexProperties: seq<string> := ["property float x", "property float y", "property float z"]
  const ColorProperties: seq<string> := ["property uchar red", "property uchar green", "property uchar blue"]
  const FaceProperty: string := "property list uchar int vertex_indices"
  const MeshComment: string := "# VGGT Mesh Export"

  function ElementLine(kind: string, n: nat): string
  {
    "element " + kind + " " + NatToString(n)
  }

  /** The header lines up to the vertex properties, shared by both PLY writers. */
  function VertexSection(n: nat, colored: bool): seq<string>
  {
    ["ply", "format ascii 1.0", ElementLine("vertex", n)] + VertexProperties + (if colored then ColorProperties else [])
  }

  /** The header of a PLY point cloud with n points. */
  function PlyHeader(n: nat, colored: bool): (h: seq<string>)
    ensures |h| == if colored then 10 else 7
  {
    VertexSection(n, colored) + ["end_header"]
  }

  /** The header of a PLY mesh: the face element and its property close the header. */
  function MeshPlyHeader(nv: nat, nf: nat, colored: bool): (h: seq<string>)
    ensures |h| == if colored then 12 else 9
  {
    VertexSection(nv, colored) + [ElementLine("face", nf), FaceProperty, "end_header"]
  }

  /** Reads the count back from an "element <kind> <n>" line. */
  function ElementCount(kind: string, line: string): Option<nat>
  {
    var pre := "element " + kind + " ";
    if |line| > |pre| && line[..|pre|] == pre && AllDigits(line[|pre|..]) then Some(DigitsValue(line[|pre|..])) else None
  }

  lemma ElementCountRoundTrip(kind: string, n: nat)
    ensures ElementCount(kind, ElementLine(kind, n)) == Some(n)
  {
    var pre := "element " + kind + " ";
    assert ElementLine(kind, n) == pre + NatToString(n);
    assert ElementLine(kind, n)[|pre|..] == NatToString(n);
    NatToStringRoundTrip(n);
  }

  /**
    The point-cloud PLY header: "ply", "format ascii 1.0", the vertex count
    that reads back as n, the three coordinate properties, the three colour
    properties exactly when colours are given, and "end_header": 7 lines
    without colours, 10 with.
  */
  lemma PlyHeaderShape(n: nat, colored: bool)
    ensures var h := PlyHeader(n, colored);
      && |h| == (if colored then 10 else 7)
      && h[0] == "ply" && h[1] == "format ascii 1.0"
      && ElementCount("vertex", h[2]) == Some(n)
      && h[3..6] == VertexProperties
      && (colored <==> h[6..|h| - 1] == ColorProperties)
      && h[|h| - 1] == "end_header"
      && "end_header" !in h[..|h| - 1]
  {
    ElementCountRoundTrip("vertex", n);
    var h := PlyHeader(n, colored);
    assert h[2] == ElementLine("vertex", n);
    assert h[3..6] == VertexProperties;
    if !colored {
      assert h[6..|h| - 1] == [];
    } else {
      assert h[6..|h| - 1] == ColorProperties;
    }
    assert h[..|h| - 1] == VertexSection(n, colored);
    assert "end_header" != ElementLine("vertex", n) by {
      assert "end_header"[1] != ElementLine("vertex", n)[1];
    }
  }

  /**
    The mesh PLY header is the point-cloud header with "element face M" and
    the vertex_indices property inserted immediately before "end_header",
    after all vertex properties.
  */
  lemma MeshPlyHeaderShape(nv: nat, nf: nat, colored: bool)
    ensures var h, p := MeshPlyHeader(nv, nf, colored), PlyHeader(nv, colored);
      && |h| == |p| + 2
      && h[..|p| - 1] == p[..|p| - 1]
      && ElementCount("face", h[|h| - 3]) == Some(nf)
      && h[|h| - 2] == FaceProperty
      && h[|h| - 1] == "end_header"
      && ElementCount("vertex", h[2]) == Some(nv)
  {
    ElementCountRoundTrip("face", nf);
    PlyHeaderShape(nv, colored);
    var h := MeshPlyHeader(nv, nf, colored);
    assert h[2] == PlyHeader(nv, colored)[2];
  }

  // ---------------------------------------------------------------------
  // Face lines
  // ---------------------------------------------------------------------

  /** Three integers separated by single spaces. */
  function Triple(x: int, y: int, z: int): string
  {
    IntToString(x) + " " + (IntToString(y) + " " + IntToString(z))
  }

  /** OBJ faces are 1-indexed: "f a+1 b+1 c+1". */
  function ObjFaceLine(f: Face): string
  {
    "f " + Triple(f.a + 1, f.b + 1, f.c + 1)
  }

  /** PLY faces are a vertex count and 0-based indices: "3 a b c". */
  function PlyFaceLine(f: Face): string
  {
    "3 " + Triple(f.a, f.b, f.c)
  }

  /** The text before the first space and the text after it. */
  function SplitSpace(s: string): (r: (string, string))
    ensures ' ' !in r.0 && |r.0| <= |s| && |r.1| <= |s|
  {
    if s == [] then ([], [])
    else if s[0] == ' ' then ([], s[1..])
    else var (a, b) := SplitSpace(s[1..]); ([s[0]] + a, b)
  }

  lemma {:induction false} SplitSpaceJoin(a: string, b: string)
    requires ' ' !in a
    ensures SplitSpace(a + " " + b) == (a, b)
  {
    var s := a + " " + b;
    if a == [] {
      assert s[0] == ' ' && s[1..] == b;
    } else {
      assert s[0] == a[0] && a[0] != ' ';
      assert s[1..] == a[1..] + " " + b;
      SplitSpaceJoin(a[1..], b);
      assert [a[0]] + a[1..] == a;
    }
  }

  lemma IntToStringNoSpace(i: int)
    ensures ' ' !in IntToString(i)
  {
  }

  /** Three space-separated integers. */
  function ParseTriple(s: string): Option<(int, int, int)>
  {
    var (t1, r1) := SplitSpace(s);
    var (t2, t3) := SplitSpace(r1);
    match (ParseInt(t1), ParseInt(t2), ParseInt(t3))
    case (Some(x), Some(y), Some(z)) => if ' ' in t3 then None else Some((x, y, z))
    case _ => None
  }

  /** The three integers after a leading tag. */
  function DecodeTagged(tag: string, line: string): Option<(int, int, int)>
  {
    if |line| >= |tag| && line[..|tag|] == tag then ParseTriple(line[|tag|..]) else None
  }

  /** Reads an OBJ face line back to the 0-based face it stands for. */
  function DecodeObjFace(line: string): Option<Face>
  {
    match DecodeTagged("f ", line)
    case Some((x, y, z)) => Some(Face(x - 1, y - 1, z - 1))
    case None => None
  }

  /** Reads a PLY face line back to its face. */
  function DecodePlyFace(line: string): Option<Face>
  {
    match DecodeTagged("3 ", line)
    case Some((x, y, z)) => Some(Face(x, y, z))
    case None => None
  }

  lemma ParseTripleRoundTrip(x: int, y: int, z: int)
    ensures ParseTriple(Triple(x, y, z)) == Some((x, y, z))
  {
    var sx, sy, sz := IntToString(x), IntToString(y), IntToString(z);
    IntToStringNoSpace(x);
    IntToStringNoSpace(y);
    IntToStringNoSpace(z);
    SplitSpaceJoin(sx, sy + " " + sz);
    SplitSpaceJoin(sy, sz);
    IntToStringRoundTrip(x);
    IntToStringRoundTrip(y);
    IntToStringRoundTrip(z);
  }

  lemma TaggedRoundTrip(tag: string, x: int, y: int, z: int)
    ensures DecodeTagged(tag, tag + Triple(x, y, z)) == Some((x, y, z))
  {
    var body := Triple(x, y, z);
    assert (tag + body)[..|tag|] == tag && (tag + body)[|tag|..] == body;
    ParseTripleRoundTrip(x, y, z);
  }

  /** An OBJ face line reads back, undoing the +1, as the face written. */
  lemma ObjFaceRoundTrip(f: Face)
    ensures DecodeObjFace(ObjFaceLine(f)) == Some(f)
  {
    TaggedRoundTrip("f ", f.a + 1, f.b + 1, f.c + 1);
    ObjDecodeShift(ObjFaceLine(f), f.a + 1, f.b + 1, f.c + 1);
  }

  lemma ObjDecodeShift(line: string, x: int, y: int, z: int)
    requires DecodeTagged("f ", line) == Some((x, y, z))
    ensures DecodeObjFace(line) == Some(Face(x - 1, y - 1, z - 1))
  {
  }

  /** A PLY face line reads back as the face written. */
  lemma PlyFaceRoundTrip(f: Face)
    ensures DecodePlyFace(PlyFaceLine(f)) == Some(f)
  {
    TaggedRoundTrip("3 ", f.a, f.b, f.c);
  }

  /** The same face: OBJ writes index v as v+1 where PLY writes v. */
  lemma FaceIndexConventions(f: Face)
    ensures DecodeObjFace(ObjFaceLine(f)) == DecodePlyFace(PlyFaceLine(f)) == Some(f)
    ensures ObjFaceLine(f) == "f " + Triple(f.a + 1, f.b + 1, f.c + 1) && PlyFaceLine(f) == "3 " + Triple(f.a, f.b, f.c)
    ensures ObjFaceLine(f) != PlyFaceLine(f)
  {
    ObjFaceRoundTrip(f);
    PlyFaceRoundTrip(f);
    assert ObjFaceLine(f)[0] == 'f' && PlyFaceLine(f)[0] == '3';
  }

  // ---------------------------------------------------------------------
  // File contents
  // ---------------------------------------------------------------------

  /** Colours run out before the points do: `colors[i]` raises at i = len(colors). */
  predicate ColorsShort(n: nat, colors: Option<seq<Color>>)
  {
    colors.Some? && |colors.value| < n
  }

  /** How many vertex lines are written before the loop ends or raises. */
  function WrittenCount(n: nat, colors: Option<seq<Color>>): nat
  {
    if ColorsShort(n, colors) then |colors.value| else n
  }

  /** The vertex lines written for the points (all of them, or up to the first missing colour). */
  function VertexLines(points: seq<Point>, colors: Option<seq<Color>>, style: Style): (ls: seq<Line>)
    ensures |ls| == WrittenCount(|points|, colors)
  {
    var k := WrittenCount(|points|, colors);
    seq(k, i requires 0 <= i < k => Vertex(style, points[i], if colors.Some? then Some(colors.value[i]) else None))
  }

  function FaceLine(f: Face, obj: bool): Line
  {
    Text(if obj then ObjFaceLine(f) else PlyFaceLine(f))
  }

  function FaceLines(faces: seq<Face>, obj: bool): (ls: seq<Line>)
    ensures |ls| == |faces| && forall i :: 0 <= i < |faces| ==> ls[i] == FaceLine(faces[i], obj)
  {
    seq(|faces|, i requires 0 <= i < |faces| => FaceLine(faces[i], obj))
  }

  /** The lines of `export_ply`. */
  function PlyFile(points: seq<Point>, colors: Option<seq<Color>>): (f: seq<Line>)
    ensures |f| == |PlyHeader(|points|, colors.Some?)| + WrittenCount(|points|, colors)
    ensures |f| == (if colors.Some? then 10 else 7) + WrittenCount(|points|, colors)
  {
    Texts(PlyHeader(|points|, colors.Some?)) + VertexLines(points, colors, PlyVertex)
  }

  /** The lines of `export_obj`: two comment lines, an empty line, then the vertices. */
  function ObjFile(points: seq<Point>, colors: Option<seq<Color>>): (f: seq<Line>)
    ensures |f| == 3 + WrittenCount(|points|, colors)
  {
    Texts(["# VGGT Point Cloud Export", "# Points: " + NatToString(|points|), ""]) + VertexLines(points, colors, ObjVertex)
  }

  /**
    The lines `export_mesh` writes after the given header: the vertices, then
    the faces (no face is written once a colour is missing).
  */
  function MeshFile(header: seq<string>, vertices: seq<Point>, faces: seq<Face>, colors: Option<seq<Color>>, obj: bool): seq<Line>
  {
    Texts(header) + MeshBody(vertices, faces, colors, obj)
  }

  /** What follows the header of a mesh file. */
  function MeshBody(vertices: seq<Point>, faces: seq<Face>, colors: Option<seq<Color>>, obj: bool): seq<Line>
  {
    VertexLines(vertices, colors, if obj then ObjVertex else PlyVertex)
    + (if ColorsShort(|vertices|, colors) then [] else FaceLines(faces, obj))
  }

  /** The lines of the OBJ branch of `export_mesh`: one comment line opens the file. */
  function ObjMeshFile(vertices: seq<Point>, faces: seq<Face>, colors: Option<seq<Color>>): seq<Line>
  {
    MeshFile([MeshComment], vertices, faces, colors, true)
  }

  /** The lines of the PLY branch of `export_mesh`. */
  function PlyMeshFile(vertices: seq<Point>, faces: seq<Face>, colors: Option<seq<Color>>): seq<Line>
  {
    MeshFile(MeshPlyHeader(|vertices|, |faces|, colors.Some?), vertices, faces, colors, false)
  }

  /**
    A complete PLY point cloud has exactly one line per point after the
    header, line i of the body rendering point i (with colour i when given).
  */
  lemma PlyFileBody(points: seq<Point>, colors: Option<seq<Color>>)
    requires !ColorsShort(|points|, colors)
    ensures var f, h := PlyFile(points, colors), PlyHeader(|points|, colors.Some?);
      && |f| == |h| + |points|
      && (forall i :: 0 <= i < |h| ==> f[i] == Text(h[i]))
      && (forall i :: 0 <= i < |points| ==>
            f[|h| + i] == Vertex(PlyVertex, points[i], if colors.Some? then Some(colors.value[i]) else None))
  {
  }

  lemma ConcatThird<T>(a: seq<T>, b: seq<T>, c: seq<T>, j: nat)
    requires j < |c|
    ensures (a + b + c)[|a| + |b| + j] == c[j]
  {
  }

  /** A mesh file is its header, one line per vertex, then the face lines. */
  lemma MeshFileParts(header: seq<string>, vertices: seq<Point>, faces: seq<Face>, colors: Option<seq<Color>>, obj: bool)
    requires !ColorsShort(|vertices|, colors)
    ensures var f := MeshFile(header, vertices, faces, colors, obj);
      && |f| == |header| + |vertices| + |faces|
      && f[..|header|] == Texts(header)
      && f[|header| + |vertices|..] == FaceLines(faces, obj)
  {
    var hs, vs, fs := Texts(header), VertexLines(vertices, colors, if obj then ObjVertex else PlyVertex), FaceLines(faces, obj);
    assert |vs| == |vertices| by {
      assert WrittenCount(|vertices|, colors) == |vertices|;
    }
    assert MeshBody(vertices, faces, colors, obj) == vs + fs;
    assert MeshFile(header, vertices, faces, colors, obj) == hs + (vs + fs);
    ThreeParts(hs, vs, fs);
  }

  /**
    A complete PLY mesh is the header, one line per vertex, then the face
    lines (each of which reads back as its face, FaceLinesDecode).
  */
  lemma PlyMeshFileBody(vertices: seq<Point>, faces: seq<Face>, colors: Option<seq<Color>>)
    requires !ColorsShort(|vertices|, colors)
    ensures var f, h := PlyMeshFile(vertices, faces, colors), MeshPlyHeader(|vertices|, |faces|, colors.Some?);
      && |f| == |h| + |vertices| + |faces|
      && f[..|h|] == Texts(h)
      && f[|h| + |vertices|..] == FaceLines(faces, false)
  {
    MeshFileParts(MeshPlyHeader(|vertices|, |faces|, colors.Some?), vertices, faces, colors, false);
  }

  /**
    A complete OBJ mesh is the comment line, one line per vertex, then the
    face lines (each of which reads back as its face, FaceLinesDecode).
  */
  lemma ObjMeshFileBody(vertices: seq<Point>, faces: seq<Face>, colors: Option<seq<Color>>)
    requires !ColorsShort(|vertices|, colors)
    ensures var f := ObjMeshFile(vertices, faces, colors);
      && |f| == 1 + |vertices| + |faces|
      && f[0] == Text(MeshComment)
      && f[1 + |vertices|..] == FaceLines(faces, true)
  {
    MeshFileParts([MeshComment], vertices, faces, colors, true);
    var f := ObjMeshFile(vertices, faces, colors);
    assert f[..1] == Texts([MeshComment]);
    assert f[0] == f[..1][0];
  }

  /** Every face line reads back as its face: OBJ undoing the +1, PLY as written. */
  lemma FaceLinesDecode(faces: seq<Face>)
    ensures forall j :: 0 <= j < |faces| ==>
      FaceLines(faces, true)[j].Text? && DecodeObjFace(FaceLines(faces, true)[j].s) == Some(faces[j])
    ensures forall j :: 0 <= j < |faces| ==>
      FaceLines(faces, false)[j].Text? && DecodePlyFace(FaceLines(faces, false)[j].s) == Some(faces[j])
  {
    forall j | 0 <= j < |faces|
      ensures DecodeObjFace(ObjFaceLine(faces[j])) == Some(faces[j])
      ensures DecodePlyFace(PlyFaceLine(faces[j])) == Some(faces[j])
    {
      ObjFaceRoundTrip(faces[j]);
      PlyFaceRoundTrip(faces[j]);
    }
  }

  lemma Snoc<T>(a: seq<T>, b: seq<T>, x: T)
    requires |a| == |b| + 1 && a[|b|] == x
    requires forall j :: 0 <= j < |b| ==> a[j] == b[j]
    ensures a == b + [x]
  {
  }

  lemma EmptyPrefix<T>(a: seq<T>)
    ensures [] + a == a
  {
  }

  lemma ThreeParts<T>(a: seq<T>, b: seq<T>, c: seq<T>)
    ensures var s := a + (b + c);
      && |s| == |a| + |b| + |c| && s[..|a|] == a && (|a| > 0 ==> s[0] == a[0]) && s[|a| + |b|..] == c
  {
    var s := a + (b + c);
    assert s[|a|..] == b + c;
  }

  /** Writing element i after a prefix of length i gives the prefix of length i + 1. */
  lemma PrefixSnoc<T>(before: seq<T>, all: seq<T>, i: nat)
    requires i < |all|
    ensures before + all[..i + 1] == before + all[..i] + [all[i]]
  {
    assert all[..i + 1] == all[..i] + [all[i]];
  }

  lemma AppendAssoc<T>(a: seq<T>, b: seq<T>, c: seq<T>)
    ensures a + (b + c) == a + b + c
  {
  }

  // ---------------------------------------------------------------------
  // Path.with_suffix
  // ---------------------------------------------------------------------

  /** The last position of c in s, or -1. */
  function RFind(s: string, c: char): (i: int)
    ensures -1 <= i < |s|
    ensures i >= 0 ==> s[i] == c
    ensures forall j :: i < j < |s| ==> s[j] != c
  {
    if s == [] then -1
    else if s[|s| - 1] == c then |s| - 1
    else RFind(s[..|s| - 1], c)
  }

  function Name(p: Path): string
  {
    if p == [] then "" else p[|p| - 1]
  }

  /** `Path.suffix`: from the last dot, unless that dot starts or ends the name. */
  function Suffix(name: string): (s: string)
  {
    var i := RFind(name, '.');
    if 0 < i < |name| - 1 then name[i..] else ""
  }

  /** `Path.stem`: the name up to the last dot, unless that dot starts or ends the name. */
  function Stem(name: string): (s: string)
    ensures name == s + Suffix(name)
    ensures name != "" ==> s != ""
  {
    var i := RFind(name, '.');
    if 0 < i < |name| - 1 then name[..i] else name
  }

  /** `Path.with_suffix(suffix)`: the name's suffix replaced (or the suffix added); an empty name raises. */
  function WithSuffix(p: Path, suffix: string): (r: Result<Path, ExportError>)
    ensures r.Failure? <==> Name(p) == ""
    ensures r.Failure? ==> r.error == EmptyName
    ensures r.Success? ==> |r.value| == |p| && r.value[..|p| - 1] == p[..|p| - 1]
    ensures r.Success? ==> Name(r.value) == Stem(Name(p)) + suffix
  {
    var name := Name(p);
    if name == "" then Failure(EmptyName)
    else
      var oldSuffix := Suffix(name);
      Success(p[..|p| - 1] + [name[..|name| - |oldSuffix|] + suffix])
  }

  /**
    Replacing the suffix with ".ply" keeps the directory and the stem, gives
    a name whose suffix is ".ply", and doing it again changes nothing.
  */
  lemma WithPlySuffix(p: Path)
    requires Name(p) != ""
    ensures var q := WithSuffix(p, ".ply");
      && q.Success? && |q.value| == |p| && q.value[..|p| - 1] == p[..|p| - 1]
      && Stem(Name(q.value)) == Stem(Name(p))
      && Suffix(Name(q.value)) == ".ply"
      && WithSuffix(q.value, ".ply") == q
  {
    var name := Name(p);
    var oldSuffix := Suffix(name);
    var stem := name[..|name| - |oldSuffix|];
    assert |stem| >= 1 by {
      var i := RFind(name, '.');
      if 0 < i < |name| - 1 {
        assert oldSuffix == name[i..];
      }
    }
    StemWithPly(stem);
    var q := p[..|p| - 1] + [stem + ".ply"];
    assert Name(q) == stem + ".ply";
    assert q[..|q| - 1] == p[..|p| - 1];
    var n2 := stem + ".ply";
    assert n2[..|n2| - 4] == stem;
  }

  lemma StemWithPly(stem: string)
    requires |stem| >= 1
    ensures Suffix(stem + ".ply") == ".ply" && Stem(stem + ".ply") == stem
  {
    var n := stem + ".ply";
    assert n[|n| - 4] == '.' && n[|n| - 3] == 'p' && n[|n| - 2] == 'l' && n[|n| - 1] == 'y';
    assert RFind(n, '.') == |n| - 4;
    assert n[|n| - 4..] == ".ply";
  }

  // ---------------------------------------------------------------------
  // Writing files
  // ---------------------------------------------------------------------

  /** The files written so far, as the lines each holds. */
  class Disk {
    var files: map<Path, seq<Line>>

    constructor(files: map<Path, seq<Line>>)
      ensures this.files == files
    {
      this.files := files;
    }

    /** `open(path, 'w')`: creates or truncates the file. */
    method Create(path: Path)
      modifies this
      ensures files == old(files)[path := []]
    {
      files := files[path := []];
    }

    /** `f.write(line + '\n')`. */
    method WriteLine(path: Path, line: Line)
      requires path in files
      modifies this
      ensures files == old(files)[path := old(files[path]) + [line]]
    {
      files := files[path := files[path] + [line]];
    }

    method WriteTexts(path: Path, lines: seq<string>)
      requires path in files
      modifies this
      ensures files == old(files)[path := old(files[path]) + Texts(lines)]
    {
      ghost var before := files[path];
      assert before + Texts(lines[..0]) == before;
      assert files[path := before] == files;
      for i := 0 to |lines|
        invariant path in files && files == old(files)[path := before + Texts(lines[..i])]
      {
        assert Texts(lines[..i + 1]) == Texts(lines[..i]) + [Text(lines[i])];
        assert before + Texts(lines[..i + 1]) == before + Texts(lines[..i]) + [Text(lines[i])];
        WriteLine(path, Text(lines[i]));
      }
      assert lines[..|lines|] == lines;
    }

    /** The vertex loop: one line per point, raising IndexError at the first missing colour. */
    method WriteVertices(path: Path, points: seq<Point>, colors: Option<seq<Color>>, style: Style)
      returns (r: Result<(), ExportError>)
      requires path in files
      modifies this
      ensures files == old(files)[path := old(files[path]) + VertexLines(points, colors, style)]
      ensures r.Failure? <==> ColorsShort(|points|, colors)
      ensures r.Failure? ==> r.error == IndexError(|colors.value|)
    {
      ghost var before := files[path];
      assert before + VertexLines(points[..0], colors, style) == before;
      assert files[path := before] == files;
      var i := 0;
      while i < |points|
        invariant i <= |points| && i <= WrittenCount(|points|, colors)
        invariant path in files && files == old(files)[path := before + VertexLines(points[..i], colors, style)]
      {
        if colors.Some? && i >= |colors.value| {
          assert i == WrittenCount(|points|, colors);
          assert VertexLines(points[..i], colors, style) == VertexLines(points, colors, style);
          return Failure(IndexError(i));
        }
        var c := if colors.Some? then Some(colors.value[i]) else None;
        assert VertexLines(points[..i + 1], colors, style) == VertexLines(points[..i], colors, style) + [Vertex(style, points[i], c)];
        assert before + VertexLines(points[..i + 1], colors, style) == before + VertexLines(points[..i], colors, style) + [Vertex(style, points[i], c)];
        WriteLine(path, Vertex(style, points[i], c));
        i := i + 1;
      }
      assert points[..i] == points;
      r := Success(());
    }

    method WriteFaces(path: Path, faces: seq<Face>, obj: bool)
      requires path in files
      modifies this
      ensures files == old(files)[path := old(files[path]) + FaceLines(faces, obj)]
    {
      ghost var before := files[path];
      ghost var all := FaceLines(faces, obj);
      assert before + all[..0] == before;
      assert files[path := before] == files;
      for i := 0 to |faces|
        invariant path in files && files == old(files)[path := before + all[..i]]
      {
        var line := FaceLine(faces[i], obj);
        PrefixSnoc(before, all, i);
        WriteLine(path, line);
      }
      assert all[..|faces|] == all;
    }

    /** The header list of `export_ply`, grown with `extend` and `append`. */
    static method BuildHeader(n: nat, colored: bool) returns (header: seq<string>)
      ensures header == PlyHeader(n, colored)
    {
      header := ["ply", "format ascii 1.0", ElementLine("vertex", n)] + VertexProperties;
      if colored {
        header := header + ColorProperties;
      }
      header := header + ["end_header"];
    }

    /** The header list of the PLY branch of `export_mesh`. */
    static method BuildMeshHeader(nv: nat, nf: nat, colored: bool) returns (header: seq<string>)
      ensures header == MeshPlyHeader(nv, nf, colored)
    {
      header := ["ply", "format ascii 1.0", ElementLine("vertex", nv)] + VertexProperties;
      if colored {
        header := header + ColorProperties;
      }
      header := header + [ElementLine("face", nf), FaceProperty, "end_header"];
    }

    /** `export_ply`. */
    method ExportPly(points: seq<Point>, path: Path, colors: Option<seq<Color>>) returns (r: Result<(), ExportError>)
      modifies this
      ensures files == old(files)[path := PlyFile(points, colors)]
      ensures r.Failure? <==> ColorsShort(|points|, colors)
      ensures r.Failure? ==> r.error == IndexError(|colors.value|)
    {
      var header := BuildHeader(|points|, colors.Some?);
      Create(path);
      WriteTexts(path, header);
      assert [] + Texts(header) == Texts(header);
      r := WriteVertices(path, points, colors, PlyVertex);
    }

    /** `export_obj`. */
    method ExportObj(points: seq<Point>, path: Path, colors: Option<seq<Color>>) returns (r: Result<(), ExportError>)
      modifies this
      ensures files == old(files)[path := ObjFile(points, colors)]
      ensures r.Failure? <==> ColorsShort(|points|, colors)
      ensures r.Failure? ==> r.error == IndexError(|colors.value|)
    {
      var header := ["# VGGT Point Cloud Export", "# Points: " + NatToString(|points|), ""];
      Create(path);
      WriteTexts(path, header);
      assert [] + Texts(header) == Texts(header);
      r := WriteVertices(path, points, colors, ObjVertex);
    }

    /** `export_glb`: a PLY file at the path with its suffix replaced by ".ply". */
    method ExportGlb(points: seq<Point>, path: Path, colors: Option<seq<Color>>) returns (r: Result<(), ExportError>)
      modifies this
      ensures WithSuffix(path, ".ply").Failure? ==> r == Failure(EmptyName) && files == old(files)
      ensures WithSuffix(path, ".ply").Success? ==>
        && files == old(files)[WithSuffix(path, ".ply").value := PlyFile(points, colors)]
        && (r.Failure? <==> ColorsShort(|points|, colors))
    {
      var plyPath := WithSuffix(path, ".ply");
      if plyPath.Failure? {
        return Failure(plyPath.error);
      }
      r := ExportPly(points, plyPath.value, colors);
    }

    /** `export_point_cloud`: dispatch on the format name; any other name raises ValueError. */
    method ExportPointCloud(points: seq<Point>, path: Path, colors: Option<seq<Color>>, format: string)
      returns (r: Result<(), ExportError>)
      modifies this
      ensures format == "ply" ==> files == old(files)[path := PlyFile(points, colors)]
      ensures format == "obj" ==> files == old(files)[path := ObjFile(points, colors)]
      ensures format == "glb" && WithSuffix(path, ".ply").Success? ==>
        files == old(files)[WithSuffix(path, ".ply").value := PlyFile(points, colors)]
      ensures format == "glb" && WithSuffix(path, ".ply").Failure? ==>
        r == Failure(EmptyName) && files == old(files)
      ensures format !in {"ply", "obj", "glb"} ==> r == Failure(UnsupportedFormat(format)) && files == old(files)
      ensures format in {"ply", "obj"} || (format == "glb" && WithSuffix(path, ".ply").Success?) ==>
        (r.Failure? <==> ColorsShort(|points|, colors))
    {
      if format == "ply" {
        r := ExportPly(points, path, colors);
      } else if format == "obj" {
        r := ExportObj(points, path, colors);
      } else if format == "glb" {
        r := ExportGlb(points, path, colors);
      } else {
        r := Failure(UnsupportedFormat(format));
      }
    }

    /** Writes a mesh file: the header, the vertex loop, then the face loop. */
    method WriteMesh(path: Path, header: seq<string>, vertices: seq<Point>, faces: seq<Face>, colors: Option<seq<Color>>, obj: bool)
      returns (r: Result<(), ExportError>)
      modifies this
      ensures files == old(files)[path := MeshFile(header, vertices, faces, colors, obj)]
      ensures r.Failure? <==> ColorsShort(|vertices|, colors)
    {
      Create(path);
      WriteTexts(path, header);
      EmptyPrefix(Texts(header));
      assert files == old(files)[path := Texts(header)];
      r := WriteMeshBody(path, vertices, faces, colors, obj);
    }

    /** The vertex loop, then the face loop unless a colour was missing. */
    method WriteMeshBody(path: Path, vertices: seq<Point>, faces: seq<Face>, colors: Option<seq<Color>>, obj: bool)
      returns (r: Result<(), ExportError>)
      requires path in files
      modifies this
      ensures files == old(files)[path := old(files[path]) + MeshBody(vertices, faces, colors, obj)]
      ensures r.Failure? <==> ColorsShort(|vertices|, colors)
    {
      ghost var before, vs := files[path], VertexLines(vertices, colors, if obj then ObjVertex else PlyVertex);
      r := WriteVertices(path, vertices, colors, if obj then ObjVertex else PlyVertex);
      if r.Success? {
        WriteFaces(path, faces, obj);
        AppendAssoc(before, vs, FaceLines(faces, obj));
      } else {
        assert MeshBody(vertices, faces, colors, obj) == vs + [];
        assert vs + [] == vs;
      }
    }

    /** `export_mesh`: "obj" or "ply"; any other format writes nothing and raises nothing. */
    method ExportMesh(vertices: seq<Point>, faces: seq<Face>, path: Path, colors: Option<seq<Color>>, format: string)
      returns (r: Result<(), ExportError>)
      modifies this
      ensures format == "obj" ==> files == old(files)[path := ObjMeshFile(vertices, faces, colors)]
      ensures format == "ply" ==> files == old(files)[path := PlyMeshFile(vertices, faces, colors)]
      ensures format !in {"obj", "ply"} ==> r.Success? && files == old(files)
      ensures format in {"obj", "ply"} ==> (r.Failure? <==> ColorsShort(|vertices|, colors))
    {
      if format == "obj" {
        r := WriteMesh(path, [MeshComment], vertices, faces, colors, true);
      } else if format == "ply" {
        var header := BuildMeshHeader(|vertices|, |faces|, colors.Some?);
        r := WriteMesh(path, header, vertices, faces, colors, false);
      } else {
        r := Success(());
      }
    }
  }
}
