/** `main`: the argument, the parse loop over the input lines with its
    four temporary files and four counters, the closing of the files and
    the header written from them. */
module Pto {
  import opened Format
  import opened Input
  import opened Conversion
  import opened CopyFile
  import opened Header

  const USAGE: string := "Please specify an input file.\n"

  /** The file the program leaves behind. The temporary files are removed
      before it exits. */
  datatype HeaderFile = HeaderFile(path: string, content: string)

  /** What one run prints on standard output and the file it writes. */
  datatype Outcome = Outcome(stdout: string, header: Option<HeaderFile>)

  datatype Option<T> = None | Some(value: T)

  /** The lines `fgets` delivers: none when the input cannot be opened. */
  function LinesOf(input: Option<seq<Line>>): seq<Line> {
    if input.Some? then input.value else []
  }

  /** What a run with arguments `args` (the program's name first) over the
      input file `input` does. `None` is an input file that cannot be
      opened. Without an argument it prints the usage line and writes
      nothing; with one it always writes a header, named after the
      argument (see `HeaderPath`). */
  function Program(args: seq<string>, input: Option<seq<Line>>): (r: Outcome)
    requires |args| >= 2 ==> ValidArgument(args[1])
    ensures r.header.None? <==> |args| < 2
    ensures |args| < 2 ==> r.stdout == USAGE
    ensures r.header.Some? ==> r.header.value.path == BaseName(args[1]) + ".h"
  {
    if |args| < 2 then Outcome(USAGE, None)
    else
      var name := BaseName(args[1]);
      Outcome("Open: " + args[1] + "\nOutput: " + name + ".h\n",
              Some(HeaderFile(name + ".h", HeaderText(name, Run(INITIAL, LinesOf(input))))))
  }

  /** `sprintf(outfile, "%s.h", name)`: the argument up to its first `.`,
      then `.h`. */
  lemma HeaderPath(arg: string)
    requires ValidArgument(arg)
    ensures var p, k := BaseName(arg) + ".h", |BaseName(arg)|;
      && k < |arg| && p[k..] == ".h"
      && p[..k] == arg[..k] && arg[k] == '.' && '.' !in p[..k]
  {
    var name := BaseName(arg);
    assert (name + ".h")[..|name|] == name;
  }

  /** The text `sprintf` makes of three tokens, each followed by a comma:
      the tokens as a file holds them. */
  function Sprintf3(t: seq<string>): (r: string)
    requires |t| == 3
    ensures r == Terminated(t)
  {
    TerminatedTriple([], t[0], t[1], t[2]);
    assert [] + [t[0], t[1], t[2]] == t;
    t[0] + "," + t[1] + "," + t[2] + ","
  }

  /** The locals of `main` the parse loop changes: the mode, what has been
      written to each temporary file, and the counters. The ghost token
      lists record how each file's text divides into the tokens written. */
  class Converter {
    const name: string
    var mode: Mode
    var vertexArray: string
    var indexArray: string
    var normalArray: string
    var colourArray: string
    var numvert: u32
    var numind: u32
    var numnorm: u32
    var numcol: u32
    ghost var vertices: seq<string>
    ghost var indices: seq<string>
    ghost var normals: seq<string>
    ghost var colours: seq<string>

    /** Each file holds its head and then its tokens. */
    ghost predicate Valid()
      reads this
    {
      && vertexArray == ArrayText(VertexPrefix(name), vertices)
      && indexArray == ArrayText(IndexPrefix(name), indices)
      && normalArray == ArrayText(NormalPrefix(name), normals)
      && colourArray == ArrayText(ColourPrefix(name), colours)
    }

    ghost function Model(): State
      reads this
    {
      State(mode, vertices, indices, normals, colours, numvert, numind, numnorm, numcol)
    }

    /** The four `fopen(..., "w")` and head `fprintf`s, the counters and
        `mode` set to 0. */
    constructor (name: string)
      ensures this.name == name
      ensures Valid() && Model() == INITIAL
    {
      this.name := name;
      mode := SkipHeader;
      vertexArray := VertexPrefix(name);
      indexArray := IndexPrefix(name);
      normalArray := NormalPrefix(name);
      colourArray := ColourPrefix(name);
      numvert, numind, numnorm, numcol := 0, 0, 0, 0;
      vertices, indices, normals, colours := [], [], [], [];
    }

    /** `fprintf(f_vertex_array, add)` of the `sprintf` of three tokens,
        and the count of records. The other three are alike. */
    method WriteVertex(add: seq<string>)
      requires Valid() && |add| == 3
      modifies this
      ensures Valid() && Model() == old(Model()).(vertices := old(vertices) + add, numvert := AddWrap(old(numvert), 1))
    {
      TerminatedAppend(vertices, add);
      vertexArray, vertices := vertexArray + Sprintf3(add), vertices + add;
      numvert := AddWrap(numvert, 1);
    }

    method WriteIndex(add: seq<string>)
      requires Valid() && |add| == 3
      modifies this
      ensures Valid() && Model() == old(Model()).(indices := old(indices) + add, numind := AddWrap(old(numind), 3))
    {
      TerminatedAppend(indices, add);
      indexArray, indices := indexArray + Sprintf3(add), indices + add;
      numind := AddWrap(numind, 3);
    }

    method WriteNormal(add: seq<string>)
      requires Valid() && |add| == 3
      modifies this
      ensures Valid() && Model() == old(Model()).(normals := old(normals) + add, numnorm := AddWrap(old(numnorm), 1))
    {
      TerminatedAppend(normals, add);
      normalArray, normals := normalArray + Sprintf3(add), normals + add;
      numnorm := AddWrap(numnorm, 1);
    }

    method WriteColour(add: seq<string>)
      requires Valid() && |add| == 3
      modifies this
      ensures Valid() && Model() == old(Model()).(colours := old(colours) + add, numcol := AddWrap(old(numcol), 1))
    {
      TerminatedAppend(colours, add);
      colourArray, colours := colourArray + Sprintf3(add), colours + add;
      numcol := AddWrap(numcol, 1);
    }

    /** One iteration of the `while (fgets(...))` loop. */
    method Feed(line: Line)
      requires Valid()
      modifies this
      ensures Valid() && Model() == Step(old(Model()), line)
    {
      if line.text == END_HEADER {
        mode := ReadVertices;
        return;
      }
      if mode == ReadFaces {
        FeedFace(line);
      }
      if mode == ReadVertices {
        FeedVertex(line);
      }
    }

    /** A line in face mode (`mode == 2`). */
    method FeedFace(line: Line)
      requires Valid() && mode == ReadFaces && !IsEndHeader(line)
      modifies this
      ensures Valid() && Model() == Step(old(Model()), line)
    {
      if |line.uints| >= 4 {
        WriteIndex(IndexTokens(line.uints[1], line.uints[2], line.uints[3]));
      }
    }

    /** A line in vertex mode (`mode == 1`). */
    method FeedVertex(line: Line)
      requires Valid() && mode == ReadVertices && !IsEndHeader(line)
      modifies this
      ensures Valid() && Model() == Step(old(Model()), line)
    {
      match ReadVertexLine(line.floats)
      case Full(p, n, c) =>
        WriteVertex(CoordTokens(p));
        WriteNormal(CoordTokens(n));
        WriteColour(ColourTokens(c));
      case WithNormal(p, n) =>
        WriteVertex(CoordTokens(p));
        WriteNormal(CoordTokens(n));
      case Position(p) =>
        WriteVertex(CoordTokens(p));
      case FaceStart =>
        FirstFace();
        WriteIndex(FIRST_FACE);
        mode := ReadFaces;
    }

    /** `truncLast` and `"};"` on each of the four files: each becomes its
        finished declaration. */
    method Finish()
      requires Valid()
      modifies this
      ensures vertexArray == FinishedArray(VertexPrefix(name), vertices)
      ensures indexArray == FinishedArray(IndexPrefix(name), indices)
      ensures normalArray == FinishedArray(NormalPrefix(name), normals)
      ensures colourArray == FinishedArray(ColourPrefix(name), colours)
      ensures Model() == old(Model())
    {
      CloseArray(VertexPrefix(name), vertices);
      CloseArray(IndexPrefix(name), indices);
      CloseArray(NormalPrefix(name), normals);
      CloseArray(ColourPrefix(name), colours);
      var v, i, n, c := Close(vertexArray), Close(indexArray), Close(normalArray), Close(colourArray);
      vertexArray, indexArray, normalArray, colourArray := v, i, n, c;
    }
  }

  /** The `while (fgets(...))` loop over all the input lines, from the
      files as `main` opens them. */
  method Parse(name: string, lines: seq<Line>) returns (c: Converter)
    ensures fresh(c) && c.name == name && c.Valid()
    ensures c.Model() == Run(INITIAL, lines)
  {
    c := new Converter(name);
    for i := 0 to |lines|
      invariant c.name == name && c.Valid()
      invariant c.Model() == Run(INITIAL, lines[..i])
    {
      assert lines[..i + 1][..i] == lines[..i];
      c.Feed(lines[i]);
    }
    assert lines[..|lines|] == lines;
  }

  /** `main` over the arguments and the input file's lines. */
  method Convert(args: seq<string>, input: Option<seq<Line>>) returns (out: Outcome)
    requires |args| >= 2 ==> ValidArgument(args[1])
    ensures out == Program(args, input)
  {
    if |args| < 2 {
      return Outcome(USAGE, None);
    }
    var name := BaseName(args[1]);
    var stdout := "Open: " + args[1];
    var c := Parse(name, LinesOf(input));
    c.Finish();
    var content := Assemble(name, c.vertexArray, c.indexArray, c.normalArray, c.colourArray,
                            c.numind, c.numvert, c.numnorm, c.numcol);
    stdout := stdout + "\nOutput: " + name + ".h\n";
    out := Outcome(stdout, Some(HeaderFile(name + ".h", content)));
  }

  // ----- what a run produces -----

  /** The header file of any run: the preamble first; the vertex and index
      arrays always; the normals array only when normals were written, and
      whenever they were (while fewer than 2^32 normal records were
      written, the counter cannot have wrapped back to 0); the colours
      likewise; and last the trailer with the number of indices and of
      vertex records written, modulo 2^32. */
  lemma ProgramOutput(args: seq<string>, input: Option<seq<Line>>)
    requires |args| >= 2 && ValidArgument(args[1])
    ensures var name := BaseName(args[1]);
      var s := Run(INITIAL, LinesOf(input));
      && Program(args, input).header == Some(HeaderFile(name + ".h", Concat(FinishedSections(name, s))))
      && LaidOut(name, s, FinishedSections(name, s))
  {
    InitialConsistent();
    RunConsistent(INITIAL, LinesOf(input));
    ConsistentLayout(BaseName(args[1]), Run(INITIAL, LinesOf(input)));
  }

  /** What `ProgramOutput` promises of the parts of the header file. */
  predicate LaidOut(name: string, s: State, parts: seq<string>) {
    var v := AppendFile(FinishedArray(VertexPrefix(name), s.vertices));
    var i := AppendFile(FinishedArray(IndexPrefix(name), s.indices));
    var n := AppendFile(FinishedArray(NormalPrefix(name), s.normals));
    var c := AppendFile(FinishedArray(ColourPrefix(name), s.colours));
    && |parts| >= 4
    && parts[0] == Preamble(name) && parts[1] == v && parts[2] == i
    && parts[|parts| - 1] == Trailer(name, Wrap(|s.indices|), Wrap(|s.vertices| / 3))
    && (n in parts ==> s.normals != [])
    && (c in parts ==> s.colours != [])
    && (s.normals != [] && |s.normals| / 3 < U32_LIMIT ==> n in parts)
    && (s.colours != [] && |s.colours| / 3 < U32_LIMIT ==> c in parts)
  }

  lemma ConsistentLayout(name: string, s: State)
    requires Consistent(s)
    ensures LaidOut(name, s, FinishedSections(name, s))
  {
    FinishedDeclares(VertexPrefix(name), s.vertices);
    FinishedDeclares(IndexPrefix(name), s.indices);
    FinishedDeclares(NormalPrefix(name), s.normals);
    FinishedDeclares(ColourPrefix(name), s.colours);
    OutputLayout(name, FinishedArray(VertexPrefix(name), s.vertices), FinishedArray(IndexPrefix(name), s.indices),
                 FinishedArray(NormalPrefix(name), s.normals), FinishedArray(ColourPrefix(name), s.colours),
                 s.numind, s.numvert, s.numnorm, s.numcol);
    if |s.normals| / 3 < U32_LIMIT {
      CountedIffWritten(s.normals, s.numnorm);
    }
    if |s.colours| / 3 < U32_LIMIT {
      CountedIffWritten(s.colours, s.numcol);
    }
  }

  /** An input file that cannot be opened leaves both counts 0, the vertex
      and index arrays empty declarations (`... = };`) and no normals or
      colours arrays. */
  lemma MissingInput(args: seq<string>)
    requires |args| >= 2 && ValidArgument(args[1])
    ensures var name := BaseName(args[1]);
      Program(args, None).header
        == Some(HeaderFile(name + ".h",
                           Concat([Preamble(name),
                                   AppendFile(VertexPrefix(name)[..|VertexPrefix(name)| - 1] + "};"),
                                   AppendFile(IndexPrefix(name)[..|IndexPrefix(name)| - 1] + "};"),
                                   Trailer(name, 0, 0)])))
  {
    var name := BaseName(args[1]);
    assert Run(INITIAL, LinesOf(None)) == INITIAL;
    OnlyCountedArrays(name, INITIAL);
  }

  /** `pto cube.ply` over the sample file prints the two lines and writes
      `cube.h`. */
  lemma SampleOutput(lines: seq<Line>)
    requires lines == SAMPLE
    ensures var out := Program(["pto", "cube.ply"], Some(lines));
      && out.stdout == "Open: cube.ply\nOutput: cube.h\n"
      && out.header == Some(HeaderFile("cube.h", SampleHeader()))
  {
    SampleRun(lines);
    SampleName();
    var s := Run(INITIAL, lines);
    SampleSections(s);
    SampleStdout();
  }

  /** The header the sample converts to: the preamble, the vertex array
      with one vertex, the index array with the two faces (`SampleJoins`
      spells both out) and the trailer with 6 indices and 1 vertex; no
      normals or colours. */
  function SampleHeader(): string {
    Concat([Preamble("cube"),
            AppendFile(FinishedArray(VertexPrefix("cube"), ["1.000000", "2.000000", "3.000000"])),
            AppendFile(FinishedArray(IndexPrefix("cube"), ["0", "1", "2", "2", "1", "0"])),
            Trailer("cube", 6, 1)])
  }

  lemma SampleSections(s: State)
    requires s == State(ReadFaces, ["1.000000", "2.000000", "3.000000"], ["0", "1", "2", "2", "1", "0"],
                        [], [], 1, 6, 0, 0)
    ensures HeaderText("cube", s) == SampleHeader()
  {
    OnlyCountedArrays("cube", s);
  }

  lemma SampleStdout()
    ensures "cube" + ".h" == "cube.h"
    ensures "Open: " + "cube.ply" + "\nOutput: " + "cube" + ".h\n" == "Open: cube.ply\nOutput: cube.h\n"
  {
  }

  lemma SampleName()
    ensures ValidArgument("cube.ply") && BaseName("cube.ply") == "cube"
  {
    assert "cube.ply"[1..] == "ube.ply" && "ube.ply"[1..] == "be.ply";
    assert "be.ply"[1..] == "e.ply" && "e.ply"[1..] == ".ply";
  }

  /** The contents of the sample's two arrays. */
  lemma SampleJoins()
    ensures Join(["1.000000", "2.000000", "3.000000"]) == "1.000000,2.000000,3.000000"
    ensures Join(["0", "1", "2", "2", "1", "0"]) == "0,1,2,2,1,0"
  {
    var v := ["1.000000", "2.000000", "3.000000"];
    assert v[..2] == ["1.000000", "2.000000"] && v[..2][..1] == ["1.000000"];
    assert Join(v[..2]) == "1.000000,2.000000";
    var t := ["0", "1", "2", "2", "1", "0"];
    assert t[..1] == ["0"] && t[..2][..1] == t[..1] && t[..3][..2] == t[..2];
    assert t[..4][..3] == t[..3] && t[..5][..4] == t[..4] && t[..5] == ["0", "1", "2", "2", "1"];
    assert Join(t[..2]) == "0,1";
    assert Join(t[..3]) == "0,1,2";
    assert Join(t[..4]) == "0,1,2,2";
    assert Join(t[..5]) == "0,1,2,2,1";
  }
}
