# pto: an ASCII PLY file to a C header

`pto` reads an ASCII PLY mesh file and writes `<name>.h`. The header declares
the mesh as C arrays: `<name>_vertices`, `<name>_indices`, and optionally
`<name>_normals` and `<name>_colors`. It also declares the two counts
`<name>_numind` and `<name>_numvert`. `<name>` is the command-line argument up
to its first `.`.

The program works in three steps:

1. It skips the header up to the line `end_header`.
2. It reads vertex lines. Each line has 9, 6 or 3 leading numbers: position,
   normal and colour; position and normal; or position only.
3. It reads face lines `n x y z` until the end of the file.

In vertex mode, the face list starts at a line with three to five numbers whose
first three are `3 0 1`, or at any line with fewer than three numbers. That line
is taken as the first face and written as the constant `0,1,2,`.

Each value goes as a comma-terminated token into one of four temporary files,
and four `unsigned int` counters count them. At the end, each file loses its
last character and gets `};`. The header is then assembled from:

- an include guard;
- the vertex and index arrays;
- the normals array, only when `numnorm > 0`;
- the colours array, only when `numcol > 0`;
- the two counts.

The model has seven modules, one file each:

- `Format` (`format.dfy`) covers the `printf` conversions:
  - `%u` as `Decimal`;
  - `%.6f` and `%.3f` as `Fixed`, which rounds an exact real half to even;
  - the colour factor `0.003921569`;
  - the `unsigned int` counters as numbers modulo 2^32.
- `Input` (`input.dfy`) covers an input line as `fgets` delivers it. A line is its raw text (for the `strcmp`) plus the leading values that `sscanf`'s `%f` and `%u` conversions match. The module also holds the vertex-line dispatch `ReadVertexLine`.
- `Conversion` (`conversion.dfy`) is the parse loop as a pure state machine. `Step` handles one line and `Run` a list of lines. Alongside them are:
  - the invariant every step keeps (`Consistent`);
  - the effect of each kind of line;
  - the counts a well-formed file leaves;
  - a worked sample file.
- `CopyFile` (`copy_file.dfy`) covers `appendFile`:
  - its `feof`/`fgets` loop as written (`CopyAsWritten`);
  - the copy it is meant to make (`Copy`, `AppendFile`).
- `Header` (`header.dfy`) covers:
  - the base name;
  - `truncLast` followed by `"};"`;
  - the preamble and trailer;
  - the order in which the header's parts are written.
- `Pto` (`pto.dfy`) covers `main`. The class `Converter` holds the loop's locals: the mode, the four file texts and the four counters. Its `Feed` method is proved to make exactly the change `Conversion.Step` specifies. `Parse` runs the loop, and `Convert` is the whole program, proved equal to the function `Program`. The lemmas about `Program` state what the header file holds for any input, for a missing input file and for a sample.
- `DuplicatedDeclaration` (`duplicated_declaration.dfy`) is a concrete input on which `appendFile` as written duplicates an array (see Findings).

### Details of the code

- **Dispatch on field counts.** `sscanf` returns how many conversions matched, and each test compares that count with 9, 6 or 3 (`PTO/pto.c:107`, `124`, `137`). A line with at least 9 leading numbers is therefore a full record, one with 6 to 8 a position and normal, and one with 3 to 5 a position.
- **Missing input file.** The vertex and index declarations become `... = };`, because `truncLast` removes the `{` of an empty array (`PTO/pto.c:166-169`). The normals and colours arrays are left out of the header, because their counters stay 0 (`PTO/pto.c:194-197`).
- **Include guard.** The guard macro is the name exactly as given, followed by `_H` (`PTO/pto.c:187`).

## Model

| member | source | states |
|---|---|---|
| Format.AddWrapCounts | PTO/pto.c:99-122 | adding `k` to an `unsigned int` counter holding `n` modulo 2^32 leaves `n + k` modulo 2^32 |
| Format.AddedTimesCounts | PTO/pto.c:99-122 | `m` increments by `k` of a counter holding `n` modulo 2^32 leave `n + k*m` modulo 2^32 |
| Format.Decimal | PTO/pto.c:97 | `%u` prints a non-empty string of digits that starts with `0` only for the number 0 |
| Format.DecimalRoundTrip | PTO/pto.c:97 | reading the digits `%u` prints gives back the number printed |
| Format.RoundHalfEven | PTO/pto.c:111 | rounds to a whole number within 1/2, and a tie goes to the even neighbour |
| Format.Scaled | PTO/pto.c:111 | the units of the last printed place are within 1/2 of the magnitude shifted by the number of places |
| Format.Fixed | PTO/pto.c:111 | a `%.Nf` token is non-empty and holds no comma, so the commas of a file separate its tokens |
| Format.FixedReadsBack | PTO/pto.c:111 | a `%.Nf` token is an optional minus, digits, a point and N digits, and its value in units of the last place is the rounded value printed |
| Format.NumeralReadsBack | PTO/pto.c:111 | the digits printed for a magnitude of `n` units of the last place read back as `n` |
| Format.FixedWhole | PTO/pto.c:111 | a whole number printed with `%.Nf` is its `%u` digits, a point and N zeros |
| Format.ColourExtremes | PTO/pto.c:118 | the colour channel 255 prints as `1.000` and 0 as `0.000` |
| Input.ReadVertexLine | PTO/pto.c:107-158 | the vertex-line dispatch is exclusive and ordered, in both directions: ≥ 9 numbers is a full record, 6–8 position and normal, 3–5 other than `3 0 1` a position, and fewer than 3 or a leading `3 0 1` starts the faces; the position, normal and colour are the first, second and third triple |
| Conversion.FirstFace | PTO/pto.c:139-145 | the constant `0,1,2,` written for the first face is the text of the face `3 0 1 2` it stands for |
| Conversion.EndHeaderEffect | PTO/pto.c:84-88 | the line `end_header\n` writes nothing, changes no counter and sets vertex mode from any mode, face mode included |
| Conversion.VertexLineEffect | PTO/pto.c:104-159 | in vertex mode, each kind of line appends exactly its triples to its files and counts them; the face start appends `0,1,2`, adds 3 to `numind` and switches to face mode; nothing else changes |
| Conversion.FaceLineEffect | PTO/pto.c:91-101 | in face mode, a line with four leading unsigned integers `n x y z` appends `x,y,z` and adds 3 to `numind`; any other line changes nothing, and the mode stays face mode |
| Conversion.RunConcat | PTO/pto.c:81-161 | reading `a` and then `b` is reading `a + b` |
| Conversion.HeaderIgnored | PTO/pto.c:75-161 | in header mode, lines other than the terminator change nothing |
| Conversion.Step | PTO/pto.c:84-159 | one line only appends to the four files; `end_header` always sets vertex mode, no line returns to header mode, and only `end_header` leaves face mode |
| Conversion.Run | PTO/pto.c:81-161 | over any lines, the four files are only ever appended to (each old token list is a prefix of the new one), and once past the header the loop never returns to header mode |
| Conversion.TerminatedAppend | PTO/pto.c:98-150 | appending tokens to a file appends their comma-terminated text |
| Conversion.AddRecord | PTO/pto.c:111-123 | a record of three comma-free tokens keeps a file in whole records, and its counter equal to their number modulo 2^32 |
| Conversion.FullConsistent | PTO/pto.c:107-123 | a nine-number vertex line keeps the invariant: no commas in tokens, each counter the number of its records (modulo 2^32), and colour ≤ normal ≤ vertex records |
| Conversion.WithNormalConsistent | PTO/pto.c:124-136 | a six-number vertex line keeps the invariant |
| Conversion.PositionConsistent | PTO/pto.c:137-151 | a three-number vertex line keeps the invariant |
| Conversion.IndicesConsistent | PTO/pto.c:94-99 | three comma-free index tokens keep the index file in whole triples with `numind` its length modulo 2^32 |
| Conversion.StepConsistent | PTO/pto.c:81-161 | every line keeps the invariant |
| Conversion.FaceStepConsistent | PTO/pto.c:91-101 | every face-mode line keeps the invariant |
| Conversion.VertexStepConsistent | PTO/pto.c:104-159 | every vertex-mode line keeps the invariant |
| Conversion.InitialConsistent | PTO/pto.c:64-75 | the empty files and zero counters satisfy the invariant |
| Conversion.RunConsistent | PTO/pto.c:81-161 | the whole loop keeps the invariant |
| Conversion.IndexCountIsTriples | PTO/pto.c:99 | while fewer than 2^32 indices are written, `numind` is a multiple of 3, namely three times the number of index triples |
| Conversion.CountedIffWritten | PTO/pto.c:194-197 | while fewer than 2^32 records are written, a counter is positive exactly when its file holds tokens |
| Conversion.TerminatedIsJoined | PTO/pto.c:166-173 | a non-empty file text ends in a comma, and without that comma it is the tokens joined by commas |
| Conversion.TerminatedCommas | PTO/pto.c:97-119 | the commas of a file text are as many as its tokens |
| Conversion.PositionEffect | PTO/pto.c:137-151 | a position line in vertex mode counts one vertex, writes no index and keeps vertex mode |
| Conversion.RunPositions | PTO/pto.c:137-151 | N position lines add N (modulo 2^32) to `numvert` and keep `numind` |
| Conversion.RunFaces | PTO/pto.c:91-101 | M face lines add 3M (modulo 2^32) to `numind` and keep face mode |
| Conversion.AfterHeader | PTO/pto.c:84-88 | a header and its terminator leave the initial state in vertex mode |
| Conversion.UpToMarker | PTO/pto.c:84-151 | a header, its terminator and N position lines leave `numvert == N` and `numind == 0` |
| Conversion.UpToFaces | PTO/pto.c:84-158 | after the face-list marker, the mode is face mode and `numind == 3` |
| Conversion.SectionCounts | PTO/pto.c:81-161 | a header, N position lines, the marker and M face lines leave `numvert == N` and `numind == 3 + 3M` (modulo 2^32) |
| Conversion.SampleRun | PTO/pto.c:81-161 | a header line, `end_header`, `1 2 3`, `3 0 1 2`, `3 2 1 0` leave one vertex `1.000000,2.000000,3.000000`, the indices `0,1,2,2,1,0`, no normals or colours, and counts 1 and 6 |
| CopyFile.ChunkLength | PTO/pto.c:35 | one `fgets` takes at least one character and at most 255, up to and including the first newline |
| CopyFile.CopyAsWritten | PTO/pto.c:33-37 | the loop as written never loses any of the source (the source is a prefix of what it writes) and writes at most one chunk of 255 characters more than the source |
| CopyFile.Copy | PTO/pto.c:33-37 | the corrected loop (testing `fgets` itself) copies the source exactly |
| CopyFile.AppendFile | PTO/pto.c:30-38 | `appendFile` adds a newline and then the source |
| CopyFile.DuplicatesLastChunk | PTO/pto.c:33-37 | as written, a source whose last chunk stops at a newline or at 255 characters comes out with that chunk twice |
| CopyFile.CopiedOnce | PTO/pto.c:33-37 | as written, a source whose last chunk runs into the end of the file is copied exactly |
| CopyFile.NewlineFreeCopy | PTO/pto.c:33-37 | as written, a source without newlines is copied exactly unless its length is a multiple of 255, in which case its last 255 characters come out twice |
| CopyFile.DuplicatedChunk | PTO/pto.c:33-37 | 255 characters without a newline come out twice as written and once with the corrected test |
| Header.BaseName | PTO/pto.c:59-62 | the base name is the part of the argument before its first `.`, and holds no `.` |
| Header.TruncLast | PTO/pto.c:45-49 | `truncLast` removes exactly the last character |
| Header.Close | PTO/pto.c:166-173 | `truncLast` and `"};"` keep everything but the last character and end the text in `};`, one character longer |
| Header.CloseArray | PTO/pto.c:165-173 | closing a file gives the tokens joined by commas in braces, or `... = };` when no token was written |
| Header.Preamble | PTO/pto.c:187 | the include guard in both `#ifndef` and `#define` is the name exactly as given followed by `_H` |
| Header.TrailerCounts | PTO/pto.c:203 | the numbers after `<name>_numind = ` and `<name>_numvert = ` read back as the index count and the vertex count |
| Header.Layout | PTO/pto.c:191-203 | the parts are the first three and the last always, the normals right after the indices when switched on, the colours right before the last part when switched on, and nothing else |
| Header.Sections | PTO/pto.c:185-203 | the header's writes are the preamble, the vertex array, the index array, the normals array when `numnorm > 0`, the colours array when `numcol > 0`, and the trailer, in that order |
| Header.LayoutPresence | PTO/pto.c:192-197 | the vertex and index arrays are always written, and an optional array is among the parts exactly when it is switched on |
| Header.OutputLayout | PTO/pto.c:187-203 | the preamble comes first, then the vertex and then the index array, and the trailer last; the normals array is present if and only if `numnorm > 0`, and the colours array if and only if `numcol > 0` |
| Header.SectionsDiffer | PTO/pto.c:64-71 | each appended array differs from the preamble, the trailer and every other array |
| Header.HeadsDiffer | PTO/pto.c:64-71 | the four array heads differ from one another |
| Header.FinishedDeclares | PTO/pto.c:165-173 | a closed file still starts with its declaration head, up to the `{` |
| Header.OnlyCountedArrays | PTO/pto.c:191-205 | with no normals or colours counted, the header is the preamble, the vertex and index arrays and the trailer |
| Pto.Sprintf3 | PTO/pto.c:97-118 | the `sprintf` of three tokens with their commas is the file text of those tokens |
| Pto.Converter.constructor | PTO/pto.c:64-75 | the four files hold their heads, the counters are 0 and the mode is header mode |
| Pto.Converter.WriteVertex | PTO/pto.c:111-113 | the vertex file gains the three tokens and `numvert` goes up by one, modulo 2^32; nothing else changes |
| Pto.Converter.WriteIndex | PTO/pto.c:97-99 | the index file gains the three tokens and `numind` goes up by three, modulo 2^32; nothing else changes |
| Pto.Converter.WriteNormal | PTO/pto.c:115-122 | the normals file gains the three tokens and `numnorm` goes up by one; nothing else changes |
| Pto.Converter.WriteColour | PTO/pto.c:118-121 | the colours file gains the three tokens and `numcol` goes up by one; nothing else changes |
| Pto.Converter.Feed | PTO/pto.c:84-159 | one loop iteration changes the files, counters and mode exactly as `Conversion.Step` says |
| Pto.Converter.FeedFace | PTO/pto.c:91-101 | a face-mode iteration changes the state as `Conversion.Step` says |
| Pto.Converter.FeedVertex | PTO/pto.c:104-159 | a vertex-mode iteration changes the state as `Conversion.Step` says |
| Pto.Converter.Finish | PTO/pto.c:165-173 | each of the four files becomes its finished declaration; the tokens and counters are unchanged |
| Pto.Parse | PTO/pto.c:77-163 | after the loop over all lines, the state is `Conversion.Run` of the lines from the initial state |
| Pto.Program | PTO/pto.c:51-215 | a run writes a header exactly when an argument is given; without one it prints the usage text; the header's path is the base name followed by `.h` |
| Pto.HeaderPath | PTO/pto.c:183 | the path `sprintf` makes of the base name is the argument up to (not including) its first `.`, followed by `.h` |
| Pto.Convert | PTO/pto.c:51-215 | `main` prints the usage text when there is no argument; otherwise it prints `Open:` and `Output:` and writes the header that `Program` describes |
| Pto.ProgramOutput | PTO/pto.c:181-205 | for any input, `<name>.h` has the preamble first, then the vertex array and then the index array, and the trailer last with the index and vertex counts modulo 2^32. The normals array appears only when normals were written, and (below 2^32 records) whenever they were; likewise the colours array |
| Pto.ConsistentLayout | PTO/pto.c:192-203 | in any state that keeps the invariant, the header's parts are laid out as `ProgramOutput` states |
| Pto.MissingInput | PTO/pto.c:77-78 | an input file that cannot be opened still gives `<name>.h`: the preamble, `... _vertices[] = };`, `... _indices[] = };`, and counts 0 and 0 |
| Pto.SampleOutput | PTO/pto.c:51-215 | `pto cube.ply` over the sample prints `Open: cube.ply` and `Output: cube.h`, and writes the preamble, the one vertex, the six indices and the counts 6 and 1 to `cube.h` |
| Pto.SampleName | PTO/pto.c:59-62 | the base name of `cube.ply` is `cube` |
| Pto.SampleJoins | PTO/pto.c:166-173 | the sample's arrays read `1.000000,2.000000,3.000000` and `0,1,2,2,1,0` |
| DuplicatedDeclaration.RunRepeats | PTO/pto.c:137-151 | the same position line read k times writes its coordinates k times |
| DuplicatedDeclaration.TenText | PTO/pto.c:148 | the line `10 0 0` writes 28 characters and no newline |
| DuplicatedDeclaration.ClosedVertices | PTO/pto.c:165-167 | eight such lines under the name `a` close to a vertex declaration of exactly 255 characters without a newline |
| DuplicatedDeclaration.EightTens | PTO/pto.c:84-151 | the terminator and eight `10 0 0` lines leave the coordinates of `10 0 0` eight times in the vertex file |
| DuplicatedDeclaration.VertexArrayTwice | PTO/pto.c:30-38 | on that input, the vertex declaration `appendFile` copies as written comes out twice; the corrected copy writes it once |

## Left out

- `menger.c`, the demo renderer: SDL and OpenGL ES calls and floating-point animation, not part of the converter.
- The text parsing of `sscanf`: an input line is given as its raw text plus the values `%f` and `%u` match. How many numbers a line has, and their values, are inputs to the model.
- Single-precision `float`: the values a vertex line holds are exact reals. The float rounding of `%f` scanning and the double product `0.003921569*r` are not modelled.
- Format.Fixed: rounds the exact real half to even. It does not model binary floating point, infinities or NaN, so its contract is weaker than the C library's exact output for those inputs. The reals have no negative zero either: a coordinate read as `-0` prints `0.000000` in the model, where glibc prints `-0.000000`.
- `fgets` splitting input lines longer than 255 characters: the input is an already-split list of lines.
- File mechanics: the temporary files are strings in memory. Not modelled:
  - their removal at the end;
  - `fseeko`/`ftruncate`;
  - a failing `fopen` of the temporary files or of the header.
- The stdout interleaving: the two printed lines are one string. The `Open:` line is printed before the input is read, and nothing else is printed in between.
- Header.ValidArgument: the argument is required to be shorter than 32 characters and to hold a `.`. A longer argument overflows the `name` buffer, and one without a `.` writes through a null pointer. Neither case is modelled.
- Conversion.IndexCountIsTriples: holds only while fewer than 2^32 indices are written. Past that, the unsigned counter wraps, and 2^32 is not a multiple of 3.
- Conversion.CountedIffWritten: holds only while fewer than 2^32 records are written. At exactly 2^32 records the counter wraps to 0 and the array is left out of the header.
- Pto.ProgramOutput: the clause "the optional array is present whenever it was written" is stated only below 2^32 records, for the same reason.
- Pto.Program: the header is built with the corrected `AppendFile`, not with the loop as written, which is modelled separately (`CopyFile.CopyAsWritten`, see Findings).

## Findings

| source | as written | input that shows it | evidently intended | confidence | as-written member | corrected member |
|---|---|---|---|---|---|---|
| PTO/pto.c:33-37 | `while(!feof(f1)) { fgets(buf, ...); fprintf(f2, "%s", buf); }` tests for end of file before reading. The last `fgets` fails without touching `buf`, and the stale chunk is printed again whenever the previous read stopped at a newline or at 255 characters. | `pto a.ply` on the line `end_header` followed by eight lines `10 0 0`. The vertex declaration is 30 + 8 × 28 − 1 + 2 = 255 characters with no newline, so it is appended to `a.h` twice. | every chunk of the source copied once (`while (fgets(buf, ...) != NULL)`) | not executed | CopyFile.DuplicatesLastChunk, CopyFile.NewlineFreeCopy, DuplicatedDeclaration.VertexArrayTwice | CopyFile.Copy, CopyFile.AppendFile |
