/** The parse loop of pto.c as a state machine over whole values: one
    `Step` per input line, and the invariants every step keeps. The four
    array texts are what the program writes to its temporary files
    `vertex_array.txt`, `index_array.txt`, `normal_array.txt` and
    `color_array.txt`. */
module Conversion {
  import opened Format
  import opened Input

  /** `mode`: 0 skips the header, 1 reads vertex lines, 2 reads face lines. */
  datatype Mode = SkipHeader | ReadVertices | ReadFaces

  /** The loop's variables: the mode, the tokens written so far to each
      of the four temporary files, and the four `unsigned int` counters.
      Each file holds its declaration head followed by its tokens, each
      token followed by a comma (`ArrayText`). */
  datatype State = State(
    mode: Mode,
    vertices: seq<string>,
    indices: seq<string>,
    normals: seq<string>,
    colours: seq<string>,
    numvert: u32,
    numind: u32,
    numnorm: u32,
    numcol: u32)

  // ----- the array texts -----

  function VertexPrefix(name: string): string {
    "const GLfloat " + name + "_vertices[] = {"
  }

  function IndexPrefix(name: string): string {
    "const GLuint " + name + "_indices[] = {"
  }

  function NormalPrefix(name: string): string {
    "const GLfloat " + name + "_normals[] = {"
  }

  function ColourPrefix(name: string): string {
    "const GLfloat " + name + "_colors[] = {"
  }

  /** Each token followed by a comma, in order. */
  function Terminated(tokens: seq<string>): string {
    if tokens == [] then ""
    else Terminated(tokens[..|tokens| - 1]) + tokens[|tokens| - 1] + ","
  }

  /** The tokens separated by commas. */
  function Join(tokens: seq<string>): string
    requires tokens != []
  {
    if |tokens| == 1 then tokens[0]
    else Join(tokens[..|tokens| - 1]) + "," + tokens[|tokens| - 1]
  }

  /** The content of a temporary file: its head, then its tokens. */
  function ArrayText(prefix: string, tokens: seq<string>): string {
    prefix + Terminated(tokens)
  }

  /** The state before any line is read: no tokens, all counters 0. */
  const INITIAL: State := State(SkipHeader, [], [], [], [], 0, 0, 0, 0)

  /** The tokens of `"%.6f,%.6f,%.6f,"`, `"%.3f,%.3f,%.3f,"` (of the
      scaled channels) and `"%u,%u,%u,"`. */
  function CoordTokens(v: Vec3): seq<string> {
    [Fixed(v.x, 6), Fixed(v.y, 6), Fixed(v.z, 6)]
  }

  function ColourTokens(v: Vec3): seq<string> {
    [Fixed(ColourScale(v.x), 3), Fixed(ColourScale(v.y), 3), Fixed(ColourScale(v.z), 3)]
  }

  function IndexTokens(x: u32, y: u32, z: u32): seq<string> {
    [Decimal(x as nat), Decimal(y as nat), Decimal(z as nat)]
  }

  /** The indices written for the first face when the vertex list ends. */
  const FIRST_FACE: seq<string> := ["0", "1", "2"]

  /** The constant first face is the face `3 0 1 2` it stands for, and is
      written as the literal `0,1,2,`. */
  lemma FirstFace()
    ensures FIRST_FACE == IndexTokens(0, 1, 2)
    ensures Terminated(FIRST_FACE) == "0,1,2,"
  {
    assert Decimal(0) == "0" && Decimal(1) == "1" && Decimal(2) == "2";
    assert FIRST_FACE[..2] == ["0", "1"] && FIRST_FACE[..1] == ["0"];
    assert Terminated(["0"]) == "0,";
  }

  // ----- one line -----

  /** `r` holds everything `s` holds: each token list of `s` is a prefix
      of `r`'s. */
  predicate Extends(s: State, r: State) {
    && s.vertices <= r.vertices
    && s.indices <= r.indices
    && s.normals <= r.normals
    && s.colours <= r.colours
  }

  /** One iteration of the `while (fgets(...))` loop. It only appends to
      the files; the terminator always leads to vertex mode, nothing else
      leads back to header mode, and only the terminator leaves face
      mode. */
  function Step(s: State, line: Line): (r: State)
    ensures Extends(s, r)
    ensures IsEndHeader(line) ==> r.mode == ReadVertices
    ensures s.mode != SkipHeader ==> r.mode != SkipHeader
    ensures s.mode == ReadFaces && !IsEndHeader(line) ==> r.mode == ReadFaces
  {
    if IsEndHeader(line) then s.(mode := ReadVertices)
    else match s.mode
      case SkipHeader => s
      case ReadFaces =>
        if |line.uints| >= 4 then
          s.(indices := s.indices + IndexTokens(line.uints[1], line.uints[2], line.uints[3]),
             numind := AddWrap(s.numind, 3))
        else s
      case ReadVertices =>
        match ReadVertexLine(line.floats)
        case Full(p, n, c) =>
          s.(vertices := s.vertices + CoordTokens(p),
             normals := s.normals + CoordTokens(n),
             colours := s.colours + ColourTokens(c),
             numvert := AddWrap(s.numvert, 1),
             numcol := AddWrap(s.numcol, 1),
             numnorm := AddWrap(s.numnorm, 1))
        case WithNormal(p, n) =>
          s.(vertices := s.vertices + CoordTokens(p),
             normals := s.normals + CoordTokens(n),
             numvert := AddWrap(s.numvert, 1),
             numnorm := AddWrap(s.numnorm, 1))
        case Position(p) =>
          s.(vertices := s.vertices + CoordTokens(p),
             numvert := AddWrap(s.numvert, 1))
        case FaceStart =>
          s.(indices := s.indices + FIRST_FACE,
             numind := AddWrap(s.numind, 3),
             mode := ReadFaces)
  }

  /** The whole loop over `lines`, in order. The files are only ever
      appended to, and once past the header the loop never returns to
      header mode. */
  function Run(s: State, lines: seq<Line>): (r: State)
    ensures Extends(s, r)
    ensures s.mode != SkipHeader ==> r.mode != SkipHeader
    decreases |lines|
  {
    if lines == [] then s else Step(Run(s, lines[..|lines| - 1]), lines[|lines| - 1])
  }

  // ----- what one step does -----

  /** The terminator adds nothing and switches to vertex reading from any
      mode, the face mode included. */
  lemma EndHeaderEffect(s: State, line: Line)
    requires IsEndHeader(line)
    ensures Step(s, line) == s.(mode := ReadVertices)
  {
  }

  /** Vertex mode: at least nine numbers fill all three float arrays, six
      to eight the vertex and normal arrays, three to five that are not the
      marker the vertex array alone; the marker, or fewer than three
      numbers, write the constant first face and switch to face mode. */
  lemma VertexLineEffect(s: State, line: Line)
    requires s.mode == ReadVertices && !IsEndHeader(line)
    ensures var f, r := line.floats, Step(s, line);
      && (|f| >= 9 ==>
            r == s.(vertices := s.vertices + CoordTokens(At(f, 0)),
                    normals := s.normals + CoordTokens(At(f, 3)),
                    colours := s.colours + ColourTokens(At(f, 6)),
                    numvert := AddWrap(s.numvert, 1),
                    numnorm := AddWrap(s.numnorm, 1),
                    numcol := AddWrap(s.numcol, 1)))
      && (6 <= |f| < 9 ==>
            r == s.(vertices := s.vertices + CoordTokens(At(f, 0)),
                    normals := s.normals + CoordTokens(At(f, 3)),
                    numvert := AddWrap(s.numvert, 1),
                    numnorm := AddWrap(s.numnorm, 1)))
      && (3 <= |f| < 6 && !IsFaceMarker(f) ==>
            r == s.(vertices := s.vertices + CoordTokens(At(f, 0)),
                    numvert := AddWrap(s.numvert, 1)))
      && (|f| < 3 || (|f| < 6 && IsFaceMarker(f)) ==>
            r == s.(indices := s.indices + FIRST_FACE,
                    numind := AddWrap(s.numind, 3),
                    mode := ReadFaces))
  {
  }

  /** Face mode: a line with four leading unsigned integers `n x y z`
      adds `x,y,z,` and three indices; any other line changes nothing. The
      mode stays. */
  lemma FaceLineEffect(s: State, line: Line)
    requires s.mode == ReadFaces && !IsEndHeader(line)
    ensures var u, r := line.uints, Step(s, line);
      && r.mode == ReadFaces
      && (|u| >= 4 ==> r == s.(indices := s.indices + IndexTokens(u[1], u[2], u[3]),
                               numind := AddWrap(s.numind, 3)))
      && (|u| < 4 ==> r == s)
  {
  }

  // ----- whole runs -----

  /** Reading `a` then `b` is reading `a + b`. */
  lemma {:induction false} RunConcat(s: State, a: seq<Line>, b: seq<Line>)
    ensures Run(s, a + b) == Run(Run(s, a), b)
    decreases |b|
  {
    if b == [] {
      assert a + b == a;
    } else {
      assert (a + b)[..|a + b| - 1] == a + b[..|b| - 1];
      RunConcat(s, a, b[..|b| - 1]);
    }
  }

  /** Lines before the terminator change nothing. */
  lemma {:induction false} HeaderIgnored(s: State, lines: seq<Line>)
    requires s.mode == SkipHeader
    requires forall i :: 0 <= i < |lines| ==> !IsEndHeader(lines[i])
    ensures Run(s, lines) == s
    decreases |lines|
  {
    if lines != [] {
      HeaderIgnored(s, lines[..|lines| - 1]);
    }
  }

  // ----- the invariant -----

  predicate NoCommas(tokens: seq<string>) {
    forall i :: 0 <= i < |tokens| ==> ',' !in tokens[i]
  }

  /** `count` is the number of whole three-token records modulo 2^32. */
  predicate CountsRecords(tokens: seq<string>, count: u32) {
    |tokens| % 3 == 0 && count == Wrap(|tokens| / 3)
  }

  /** What every step keeps: no token holds a comma; each float array holds
      whole records of three tokens and its counter is their number modulo
      2^32; the index array holds whole triples and `numind` is its number
      of indices modulo 2^32; there are no more colour records than normal
      records, nor more normal records than vertex records. */
  ghost predicate Consistent(s: State) {
    && NoCommas(s.vertices) && NoCommas(s.indices) && NoCommas(s.normals) && NoCommas(s.colours)
    && CountsRecords(s.vertices, s.numvert)
    && CountsRecords(s.normals, s.numnorm)
    && CountsRecords(s.colours, s.numcol)
    && |s.indices| % 3 == 0 && s.numind == Wrap(|s.indices|)
    && |s.colours| <= |s.normals| <= |s.vertices|
  }

  lemma InitialConsistent()
    ensures Consistent(INITIAL)
  {
  }

  /** No token `%.Nf` or `%u` prints contains a comma. */
  lemma TokensHaveNoCommas(v: Vec3, x: u32, y: u32, z: u32)
    ensures NoCommas(CoordTokens(v)) && NoCommas(ColourTokens(v))
    ensures NoCommas(IndexTokens(x, y, z)) && NoCommas(FIRST_FACE)
  {
    assert NoComma(Decimal(x as nat)) == Decimal(x as nat);
    assert NoComma(Decimal(y as nat)) == Decimal(y as nat);
    assert NoComma(Decimal(z as nat)) == Decimal(z as nat);
  }

  lemma AddTokens(tokens: seq<string>, more: seq<string>)
    requires NoCommas(tokens) && NoCommas(more)
    ensures NoCommas(tokens + more)
  {
    assert forall i :: |tokens| <= i < |tokens + more| ==> (tokens + more)[i] == more[i - |tokens|];
  }

  lemma AddRecord(tokens: seq<string>, count: u32, more: seq<string>)
    requires NoCommas(tokens) && CountsRecords(tokens, count)
    requires NoCommas(more) && |more| == 3
    ensures NoCommas(tokens + more) && CountsRecords(tokens + more, AddWrap(count, 1))
  {
    AddTokens(tokens, more);
    assert (|tokens| + 3) / 3 == |tokens| / 3 + 1;
    AddWrapCounts(|tokens| / 3, 1, |tokens + more| / 3);
  }

  lemma FullConsistent(s: State, p: Vec3, n: Vec3, c: Vec3)
    requires Consistent(s)
    ensures Consistent(s.(vertices := s.vertices + CoordTokens(p),
                          normals := s.normals + CoordTokens(n),
                          colours := s.colours + ColourTokens(c),
                          numvert := AddWrap(s.numvert, 1),
                          numcol := AddWrap(s.numcol, 1),
                          numnorm := AddWrap(s.numnorm, 1)))
  {
    TokensHaveNoCommas(p, 0, 0, 0);
    TokensHaveNoCommas(n, 0, 0, 0);
    TokensHaveNoCommas(c, 0, 0, 0);
    AddRecord(s.vertices, s.numvert, CoordTokens(p));
    AddRecord(s.normals, s.numnorm, CoordTokens(n));
    AddRecord(s.colours, s.numcol, ColourTokens(c));
  }

  lemma WithNormalConsistent(s: State, p: Vec3, n: Vec3)
    requires Consistent(s)
    ensures Consistent(s.(vertices := s.vertices + CoordTokens(p),
                          normals := s.normals + CoordTokens(n),
                          numvert := AddWrap(s.numvert, 1),
                          numnorm := AddWrap(s.numnorm, 1)))
  {
    TokensHaveNoCommas(p, 0, 0, 0);
    TokensHaveNoCommas(n, 0, 0, 0);
    AddRecord(s.vertices, s.numvert, CoordTokens(p));
    AddRecord(s.normals, s.numnorm, CoordTokens(n));
  }

  lemma PositionConsistent(s: State, p: Vec3)
    requires Consistent(s)
    ensures Consistent(s.(vertices := s.vertices + CoordTokens(p),
                          numvert := AddWrap(s.numvert, 1)))
  {
    TokensHaveNoCommas(p, 0, 0, 0);
    AddRecord(s.vertices, s.numvert, CoordTokens(p));
  }

  lemma IndicesConsistent(s: State, more: seq<string>, m: Mode)
    requires Consistent(s) && NoCommas(more) && |more| == 3
    ensures Consistent(s.(indices := s.indices + more, numind := AddWrap(s.numind, 3), mode := m))
  {
    AddTokens(s.indices, more);
    AddWrapCounts(|s.indices|, 3, |s.indices + more|);
    WholeTriples(|s.indices|, |s.indices + more|);
  }

  lemma WholeTriples(n: nat, total: nat)
    requires n % 3 == 0 && total == n + 3
    ensures total % 3 == 0
  {
  }

  lemma StepConsistent(s: State, line: Line)
    requires Consistent(s)
    ensures Consistent(Step(s, line))
  {
    if IsEndHeader(line) || s.mode == SkipHeader {
    } else if s.mode == ReadFaces {
      FaceStepConsistent(s, line);
    } else {
      VertexStepConsistent(s, line);
    }
  }

  lemma FaceStepConsistent(s: State, line: Line)
    requires Consistent(s) && s.mode == ReadFaces && !IsEndHeader(line)
    ensures Consistent(Step(s, line))
  {
    if |line.uints| >= 4 {
      var u := line.uints;
      TokensHaveNoCommas(Vec3(0.0, 0.0, 0.0), u[1], u[2], u[3]);
      IndicesConsistent(s, IndexTokens(u[1], u[2], u[3]), ReadFaces);
    }
  }

  lemma VertexStepConsistent(s: State, line: Line)
    requires Consistent(s) && s.mode == ReadVertices && !IsEndHeader(line)
    ensures Consistent(Step(s, line))
  {
    match ReadVertexLine(line.floats)
    case Full(p, n, c) => FullConsistent(s, p, n, c);
    case WithNormal(p, n) => WithNormalConsistent(s, p, n);
    case Position(p) => PositionConsistent(s, p);
    case FaceStart =>
      TokensHaveNoCommas(Vec3(0.0, 0.0, 0.0), 0, 0, 0);
      IndicesConsistent(s, FIRST_FACE, ReadFaces);
  }

  /** Every run from a consistent state ends in one. */
  lemma {:induction false} RunConsistent(s: State, lines: seq<Line>)
    requires Consistent(s)
    ensures Consistent(Run(s, lines))
    decreases |lines|
  {
    if lines != [] {
      RunConsistent(s, lines[..|lines| - 1]);
      StepConsistent(Run(s, lines[..|lines| - 1]), lines[|lines| - 1]);
    }
  }

  /** While fewer than 2^32 indices have been written, `numind` is a
      multiple of three: three times the number of index triples. */
  lemma IndexCountIsTriples(s: State)
    requires Consistent(s) && |s.indices| < U32_LIMIT
    ensures s.numind % 3 == 0
    ensures s.numind as int == 3 * (|s.indices| / 3)
  {
  }

  // ----- the text of the temporary files -----

  lemma {:induction false} TerminatedAppend(tokens: seq<string>, more: seq<string>)
    ensures Terminated(tokens + more) == Terminated(tokens) + Terminated(more)
    decreases |more|
  {
    if more == [] {
      assert tokens + more == tokens;
    } else {
      assert (tokens + more)[..|tokens + more| - 1] == tokens + more[..|more| - 1];
      TerminatedAppend(tokens, more[..|more| - 1]);
    }
  }

  /** Appending three tokens appends what `sprintf("%s,%s,%s,")` writes. */
  lemma TerminatedTriple(tokens: seq<string>, a: string, b: string, c: string)
    ensures Terminated(tokens + [a, b, c]) == Terminated(tokens) + a + "," + b + "," + c + ","
  {
    TerminatedAppend(tokens, [a, b, c]);
    assert [a, b, c][..2] == [a, b] && [a, b][..1] == [a] && [a][..0] == [];
    assert Terminated([a]) == a + ",";
    assert Terminated([a, b]) == a + "," + b + ",";
  }

  /** The text of a non-empty array ends in the comma after its last
      token; without that comma it is the tokens joined by commas. */
  lemma {:induction false} TerminatedIsJoined(tokens: seq<string>)
    requires tokens != []
    ensures |Terminated(tokens)| > 0
    ensures Terminated(tokens)[|Terminated(tokens)| - 1] == ','
    ensures Terminated(tokens)[..|Terminated(tokens)| - 1] == Join(tokens)
    decreases |tokens|
  {
    var t := Terminated(tokens);
    if |tokens| > 1 {
      TerminatedIsJoined(tokens[..|tokens| - 1]);
      var front := Terminated(tokens[..|tokens| - 1]);
      assert front == Join(tokens[..|tokens| - 1]) + ",";
      assert t == front + tokens[|tokens| - 1] + ",";
    } else {
      assert tokens[..0] == [];
      assert t == Terminated([]) + tokens[0] + ",";
    }
  }

  /** Counting the commas of an array text counts its tokens. */
  lemma {:induction false} TerminatedCommas(tokens: seq<string>)
    requires NoCommas(tokens)
    ensures Occurrences(Terminated(tokens), ',') == |tokens|
    decreases |tokens|
  {
    if tokens != [] {
      var front := tokens[..|tokens| - 1];
      var last := tokens[|tokens| - 1];
      TerminatedCommas(front);
      OccurrencesAbsent(last, ',');
      OccurrencesAppend(Terminated(front), last, ',');
      OccurrencesAppend(Terminated(front) + last, ",", ',');
    }
  }

  // ----- counting the sections of a file -----

  /** A vertex line with three to five numbers that are not the marker. */
  predicate IsPositionLine(line: Line) {
    !IsEndHeader(line) && 3 <= |line.floats| < 6 && !IsFaceMarker(line.floats)
  }

  /** A line that ends the vertex list: the marker, or fewer than three
      numbers. */
  predicate EndsVertices(line: Line) {
    !IsEndHeader(line) && (|line.floats| < 3 || (|line.floats| < 6 && IsFaceMarker(line.floats)))
  }

  /** A face line with four leading unsigned integers. */
  predicate IsFaceLine(line: Line) {
    !IsEndHeader(line) && |line.uints| >= 4
  }

  lemma PositionEffect(s: State, line: Line)
    requires s.mode == ReadVertices && IsPositionLine(line)
    ensures var r := Step(s, line);
      && r.mode == ReadVertices && r.numind == s.numind && r.indices == s.indices
      && r.numvert == AddWrap(s.numvert, 1)
  {
  }

  /** Position lines in vertex mode each count one vertex. */
  lemma {:induction false} RunPositions(s: State, lines: seq<Line>)
    requires s.mode == ReadVertices
    requires forall i :: 0 <= i < |lines| ==> IsPositionLine(lines[i])
    ensures var r := Run(s, lines);
      && r.mode == ReadVertices && r.numind == s.numind
      && r.numvert == AddedTimes(s.numvert, 1, |lines|)
    decreases |lines|
  {
    if lines != [] {
      var front, last := lines[..|lines| - 1], lines[|lines| - 1];
      RunPositions(s, front);
      PositionEffect(Run(s, front), last);
    }
  }

  /** Face lines in face mode each count three indices. */
  lemma {:induction false} RunFaces(s: State, lines: seq<Line>)
    requires s.mode == ReadFaces
    requires forall i :: 0 <= i < |lines| ==> IsFaceLine(lines[i])
    ensures var r := Run(s, lines);
      && r.mode == ReadFaces && r.numvert == s.numvert
      && r.numind == AddedTimes(s.numind, 3, |lines|)
    decreases |lines|
  {
    if lines != [] {
      var front, last := lines[..|lines| - 1], lines[|lines| - 1];
      RunFaces(s, front);
      FaceLineEffect(Run(s, front), last);
    }
  }

  /** The header lines change nothing; their terminator starts the
      vertex list. */
  lemma AfterHeader(header: seq<Line>, terminator: Line)
    requires forall i :: 0 <= i < |header| ==> !IsEndHeader(header[i])
    requires IsEndHeader(terminator)
    ensures Run(INITIAL, header + [terminator]) == INITIAL.(mode := ReadVertices)
  {
    HeaderIgnored(INITIAL, header);
    RunConcat(INITIAL, header, [terminator]);
  }

  /** The state a header, its terminator and N position lines leave:
      vertex mode, `numvert == N` and no indices. */
  lemma UpToMarker(header: seq<Line>, terminator: Line, positions: seq<Line>) returns (s: State)
    requires forall i :: 0 <= i < |header| ==> !IsEndHeader(header[i])
    requires IsEndHeader(terminator)
    requires forall i :: 0 <= i < |positions| ==> IsPositionLine(positions[i])
    ensures s == Run(INITIAL, header + [terminator] + positions)
    ensures s.mode == ReadVertices && s.numvert == Wrap(|positions|) && s.numind == 0
  {
    AfterHeader(header, terminator);
    var s1 := Run(INITIAL, header + [terminator]);
    RunPositions(s1, positions);
    RunConcat(INITIAL, header + [terminator], positions);
    s := Run(s1, positions);
    AddedTimesCounts(0, 1, |positions|, |positions|);
  }

  /** The marker then switches to face mode with the first face's three
      indices. */
  lemma UpToFaces(header: seq<Line>, terminator: Line, positions: seq<Line>, marker: Line)
      returns (s: State)
    requires forall i :: 0 <= i < |header| ==> !IsEndHeader(header[i])
    requires IsEndHeader(terminator)
    requires forall i :: 0 <= i < |positions| ==> IsPositionLine(positions[i])
    requires EndsVertices(marker)
    ensures s == Run(INITIAL, header + [terminator] + positions + [marker])
    ensures s.mode == ReadFaces && s.numvert == Wrap(|positions|) && s.numind == Wrap(3)
  {
    var s2 := UpToMarker(header, terminator, positions);
    RunConcat(INITIAL, header + [terminator] + positions, [marker]);
    s := Step(s2, marker);
    assert s.numvert == s2.numvert;
  }

  /** A header, its terminator, N position lines, the marker and M face
      lines leave `numvert == N` and `numind == 3 + 3M` (modulo 2^32): the
      marker's constant first face and three indices per face line. */
  lemma SectionCounts(header: seq<Line>, terminator: Line, positions: seq<Line>, marker: Line, faces: seq<Line>)
    requires forall i :: 0 <= i < |header| ==> !IsEndHeader(header[i])
    requires IsEndHeader(terminator)
    requires forall i :: 0 <= i < |positions| ==> IsPositionLine(positions[i])
    requires EndsVertices(marker)
    requires forall i :: 0 <= i < |faces| ==> IsFaceLine(faces[i])
    ensures var r := Run(INITIAL, header + [terminator] + positions + [marker] + faces);
      && r.mode == ReadFaces
      && r.numvert == Wrap(|positions|)
      && r.numind == Wrap(3 + 3 * |faces|)
  {
    var s := UpToFaces(header, terminator, positions, marker);
    RunConcat(INITIAL, header + [terminator] + positions + [marker], faces);
    RunFaces(s, faces);
    AddedTimesCounts(3, 3, |faces|, 3 + 3 * |faces|);
  }

  /** A small PLY file: a header line, its terminator, one vertex, the
      face list's first line `3 0 1 2` and one more face `3 2 1 0`. */
  const SAMPLE: seq<Line> := [
    Line("element vertex 1\n", [], []),
    Line(END_HEADER, [], []),
    Line("1 2 3\n", [1.0, 2.0, 3.0], [1, 2, 3]),
    Line("3 0 1 2\n", [3.0, 0.0, 1.0, 2.0], [3, 0, 1, 2]),
    Line("3 2 1 0\n", [3.0, 2.0, 1.0, 0.0], [3, 2, 1, 0])]

  /** The sample leaves one vertex record and the indices of the two
      faces, the first written as the constant `0,1,2`. */
  lemma SampleRun(lines: seq<Line>)
    requires lines == SAMPLE
    ensures Run(INITIAL, lines)
      == State(ReadFaces, ["1.000000", "2.000000", "3.000000"], ["0", "1", "2", "2", "1", "0"], [], [], 1, 6, 0, 0)
  {
    SampleVertex(lines);
    LastTwo(INITIAL, lines);
    SampleFaces(Run(INITIAL, lines[..3]), lines[3], lines[4]);
  }

  /** The run over five lines is the run over the first three and two
      more steps. */
  lemma LastTwo(s: State, lines: seq<Line>)
    requires |lines| == 5
    ensures Run(s, lines) == Step(Step(Run(s, lines[..3]), lines[3]), lines[4])
  {
    var front := lines[..3];
    assert lines == front + [lines[3], lines[4]];
    RunConcat(s, front, [lines[3], lines[4]]);
    RunTwo(Run(s, front), lines[3], lines[4]);
  }

  lemma RunTwo(s: State, a: Line, b: Line)
    ensures Run(s, [a, b]) == Step(Step(s, a), b)
  {
    assert [a, b][..1] == [a] && [a][..0] == [];
    assert Run(s, [a]) == Step(Run(s, []), a);
  }

  /** The marker `3 0 1 2` and the face `3 2 1 0` after the vertices. */
  lemma SampleFaces(s: State, marker: Line, face: Line)
    requires s.mode == ReadVertices && s.numind == 0 && s.indices == []
    requires marker == SAMPLE[3] && face == SAMPLE[4]
    ensures Step(Step(s, marker), face)
      == s.(mode := ReadFaces, indices := ["0", "1", "2", "2", "1", "0"], numind := 6)
  {
    assert IsFaceMarker(marker.floats);
    var t := Step(s, marker);
    assert t == s.(mode := ReadFaces, indices := ["0", "1", "2"], numind := 3);
    assert Decimal(0) == "0" && Decimal(1) == "1" && Decimal(2) == "2";
    assert ["0", "1", "2"] + ["2", "1", "0"] == ["0", "1", "2", "2", "1", "0"];
  }

  /** The header line changes nothing, the terminator starts the vertex
      list and `1 2 3` is one vertex record. */
  lemma SampleVertex(lines: seq<Line>)
    requires lines == SAMPLE
    ensures Run(INITIAL, lines[..3])
      == INITIAL.(mode := ReadVertices, vertices := ["1.000000", "2.000000", "3.000000"], numvert := 1)
  {
    var t1 := Step(INITIAL, lines[0]);
    assert lines[0].text[1] != END_HEADER[1];
    var t2 := Step(t1, lines[1]);
    assert ReadVertexLine(lines[2].floats) == Position(Vec3(1.0, 2.0, 3.0));
    SampleCoordinates();
    RunPrefixes(INITIAL, lines, 1);
    RunPrefixes(INITIAL, lines, 2);
    RunPrefixes(INITIAL, lines, 3);
    assert lines[..0] == [];
  }

  /** `%.6f` of 1, 2 and 3. */
  lemma SampleCoordinates()
    ensures CoordTokens(Vec3(1.0, 2.0, 3.0)) == ["1.000000", "2.000000", "3.000000"]
  {
    OneDigitSixPlaces(1);
    OneDigitSixPlaces(2);
    OneDigitSixPlaces(3);
    assert DigitChar(1) == '1' && DigitChar(2) == '2' && DigitChar(3) == '3';
    assert [DigitChar(1)] + ".000000" == "1.000000";
    assert [DigitChar(2)] + ".000000" == "2.000000";
    assert [DigitChar(3)] + ".000000" == "3.000000";
  }

  lemma OneDigitSixPlaces(k: nat)
    requires k < 10
    ensures Fixed(k as real, 6) == [DigitChar(k)] + ".000000"
  {
    FixedWhole(k, 6);
    assert Zeros(6) == "000000";
  }

  lemma RunPrefixes(s: State, lines: seq<Line>, k: nat)
    requires 0 < k <= |lines|
    ensures Run(s, lines[..k]) == Step(Run(s, lines[..k - 1]), lines[k - 1])
  {
    assert lines[..k][..k - 1] == lines[..k - 1];
  }

  /** While fewer than 2^32 records have been written, a file's counter is
      positive exactly when the file has tokens. */
  lemma CountedIffWritten(tokens: seq<string>, count: u32)
    requires CountsRecords(tokens, count) && |tokens| / 3 < U32_LIMIT
    ensures count > 0 <==> tokens != []
  {
  }
}
