/** The end of `main`: the base name taken from the argument, each
    temporary file cut by one character and closed with `};`, and the
    header file put together from the preamble, the closed arrays and the
    trailer with the two counts. */
module Header {
  import opened Format
  import opened Conversion
  import opened CopyFile

  // ----- the base name -----

  /** What the 32-byte `name` buffer and `strstr(name, ".")` need: an
      argument of at most 31 characters holding a point. A longer one
      overflows the buffer; one without a point makes `*p = 0x00` write
      through NULL. */
  predicate ValidArgument(arg: string) {
    |arg| < 32 && '.' in arg
  }

  /** The argument up to, not including, its first `.`. */
  function BaseName(arg: string): (b: string)
    requires '.' in arg
    ensures |b| < |arg| && b == arg[..|b|] && arg[|b|] == '.'
    ensures '.' !in b
  {
    if arg[0] == '.' then ""
    else
      assert '.' in arg[1..] by {
        var k :| 0 <= k < |arg| && arg[k] == '.';
        assert arg[1..][k - 1] == '.';
      }
      [arg[0]] + BaseName(arg[1..])
  }

  // ----- closing an array -----

  /** `truncLast`: the file loses its last character. */
  function TruncLast(text: string): (r: string)
    requires |text| > 0
    ensures |r| == |text| - 1 && r == text[..|r|]
  {
    text[..|text| - 1]
  }

  /** `truncLast(f); fprintf(f, "};");`: everything but the last
      character is kept, and the text now ends in `};`. */
  function Close(text: string): (r: string)
    requires |text| > 0
    ensures |r| == |text| + 1 && TruncLast(text) <= r
    ensures r[|text| - 1] == '}' && r[|text|] == ';'
  {
    TruncLast(text) + "};"
  }

  /** The declaration an array of `tokens` is meant to become: the tokens
      joined by commas inside the braces. With no tokens the cut takes the
      opening brace instead, leaving `... = };`. */
  function FinishedArray(prefix: string, tokens: seq<string>): (r: string)
    requires |prefix| > 0
  {
    if tokens == [] then prefix[..|prefix| - 1] + "};"
    else prefix + Join(tokens) + "};"
  }

  /** Closing a temporary file gives its finished declaration: the cut
      removes the comma after the last token, or the `{` when nothing was
      written. */
  lemma CloseArray(prefix: string, tokens: seq<string>)
    requires |prefix| > 0
    ensures |ArrayText(prefix, tokens)| > 0
    ensures Close(ArrayText(prefix, tokens)) == FinishedArray(prefix, tokens)
  {
    var text := ArrayText(prefix, tokens);
    if tokens == [] {
      assert text == prefix;
    } else {
      TerminatedIsJoined(tokens);
      var t := Terminated(tokens);
      assert TruncLast(text) == prefix + t[..|t| - 1];
    }
  }

  // ----- the header file -----

  /** `"\n#ifndef %s_H\n#define %s_H\n"`: the guard macro is the name
      exactly as given, followed by `_H`, in both directives. */
  function Preamble(name: string): (r: string)
    ensures |r| == 23 + 2 * |name|
    ensures r[9..9 + |name|] == name && r[9 + |name|..11 + |name|] == "_H"
    ensures r[20 + |name|..20 + 2 * |name|] == name && r[20 + 2 * |name|..22 + 2 * |name|] == "_H"
  {
    "\n#ifndef " + name + "_H\n#define " + name + "_H\n"
  }

  /** The final `fprintf` of the two counts and the `#endif`. */
  function Trailer(name: string, numind: u32, numvert: u32): string {
    "\nconst GLsizeiptr " + name + "_numind = " + Decimal(numind as nat) + ";\nconst GLsizeiptr "
      + name + "_numvert = " + Decimal(numvert as nat) + ";\n\n#endif\n"
  }

  /** The trailer's two numbers, read back as decimals, are the index
      count and the vertex count, each right after its label. */
  lemma TrailerCounts(name: string, numind: u32, numvert: u32)
    ensures var t, a, d, e := Trailer(name, numind, numvert), 28 + |name|,
      |Decimal(numind as nat)|, |Decimal(numvert as nat)|;
      && a + d + 30 + |name| + e <= |t|
      && t[18..a] == name + "_numind = "
      && DigitsValue(t[a..a + d]) == numind as nat
      && t[a + d + 19..a + d + 30 + |name|] == name + "_numvert = "
      && DigitsValue(t[a + d + 30 + |name|..a + d + 30 + |name| + e]) == numvert as nat
  {
    TrailerFields(name, numind, numvert);
    DecimalRoundTrip(numind as nat);
    DecimalRoundTrip(numvert as nat);
  }

  /** Where the labels and the two decimals sit in the trailer. */
  lemma TrailerFields(name: string, numind: u32, numvert: u32)
    ensures var t, a, d, e := Trailer(name, numind, numvert), 28 + |name|,
      |Decimal(numind as nat)|, |Decimal(numvert as nat)|;
      && a + d + 30 + |name| + e <= |t|
      && t[18..a] == name + "_numind = "
      && t[a..a + d] == Decimal(numind as nat)
      && t[a + d + 19..a + d + 30 + |name|] == name + "_numvert = "
      && t[a + d + 30 + |name|..a + d + 30 + |name| + e] == Decimal(numvert as nat)
  {
    var p, b := "\nconst GLsizeiptr ", "_numind = ";
    var u, w := ";\nconst GLsizeiptr ", "_numvert = ";
    assert |p| == 18 && |b| == 10 && |u| == 19 && |w| == 11;
    Fields(p, name, b, Decimal(numind as nat), u, w, Decimal(numvert as nat), ";\n\n#endif\n");
  }

  /** Where the name, its labels `b` and `w` and the values `x` and `y` sit
      in `p + n + b + x + u + n + w + y + z`, the trailer's shape. */
  lemma Fields(p: string, n: string, b: string, x: string, u: string, w: string, y: string, z: string)
    ensures var t, a := p + n + b + x + u + n + w + y + z, |p| + |n| + |b|;
      && a + |x| + |u| + |n| + |w| + |y| <= |t|
      && t[|p|..a] == n + b
      && t[a..a + |x|] == x
      && t[a + |x| + |u|..a + |x| + |u| + |n| + |w|] == n + w
      && t[a + |x| + |u| + |n| + |w|..a + |x| + |u| + |n| + |w| + |y|] == y
  {
    var t, a := p + n + b + x + u + n + w + y + z, |p| + |n| + |b|;
    assert t == (p + (n + b) + x + u) + (n + w) + y + z;
  }

  /** What the header file receives, write by write: the preamble, each
      appended array after a newline (the normals only when `numnorm > 0`,
      the colours only when `numcol > 0`) and the trailer. */
  function Sections(name: string, vertices: string, indices: string, normals: string, colours: string,
                    numind: u32, numvert: u32, numnorm: u32, numcol: u32): (parts: seq<string>)
    ensures |parts| == 4 + (if numnorm > 0 then 1 else 0) + (if numcol > 0 then 1 else 0)
    ensures parts[0] == Preamble(name) && parts[|parts| - 1] == Trailer(name, numind, numvert)
    ensures parts[1] == AppendFile(vertices) && parts[2] == AppendFile(indices)
    ensures numnorm > 0 ==> parts[3] == AppendFile(normals)
    ensures numcol > 0 ==> parts[|parts| - 2] == AppendFile(colours)
  {
    Layout(Preamble(name), AppendFile(vertices), AppendFile(indices), AppendFile(normals),
           AppendFile(colours), Trailer(name, numind, numvert), numnorm > 0, numcol > 0)
  }

  /** The order of the writes, with the two optional arrays: the first
      three and the last part are always there, the normals come right
      after the indices and the colours right before the last part. */
  function Layout(first: string, v: string, i: string, n: string, c: string, last: string,
                  withNormals: bool, withColours: bool): (parts: seq<string>)
    ensures |parts| == 4 + (if withNormals then 1 else 0) + (if withColours then 1 else 0)
    ensures parts[0] == first && parts[1] == v && parts[2] == i && parts[|parts| - 1] == last
    ensures withNormals ==> parts[3] == n
    ensures withColours ==> parts[|parts| - 2] == c
  {
    [first, v, i] + (if withNormals then [n] else []) + (if withColours then [c] else []) + [last]
  }

  /** An optional part that differs from every other part is among the
      parts exactly when it is switched on. */
  lemma LayoutPresence(first: string, v: string, i: string, n: string, c: string, last: string,
                       withNormals: bool, withColours: bool)
    requires n != first && n != v && n != i && n != c && n != last
    requires c != first && c != v && c != i && c != last
    ensures var parts := Layout(first, v, i, n, c, last, withNormals, withColours);
      && parts[0] == first && parts[1] == v && parts[2] == i && parts[|parts| - 1] == last
      && (n in parts <==> withNormals)
      && (c in parts <==> withColours)
  {
    var parts := Layout(first, v, i, n, c, last, withNormals, withColours);
    if withNormals && withColours {
      assert parts == [first, v, i, n, c, last];
    } else if withNormals {
      assert parts == [first, v, i, n, last];
    } else if withColours {
      assert parts == [first, v, i, c, last];
    } else {
      assert parts == [first, v, i, last];
    }
  }

  function Concat(parts: seq<string>): string {
    if parts == [] then "" else Concat(parts[..|parts| - 1]) + parts[|parts| - 1]
  }

  /** The content of `<name>.h`. */
  function Assemble(name: string, vertices: string, indices: string, normals: string, colours: string,
                    numind: u32, numvert: u32, numnorm: u32, numcol: u32): string
  {
    Concat(Sections(name, vertices, indices, normals, colours, numind, numvert, numnorm, numcol))
  }

  /** The parts of the header file of a finished state. */
  function FinishedSections(name: string, s: State): seq<string> {
    Sections(name, FinishedArray(VertexPrefix(name), s.vertices), FinishedArray(IndexPrefix(name), s.indices),
             FinishedArray(NormalPrefix(name), s.normals), FinishedArray(ColourPrefix(name), s.colours),
             s.numind, s.numvert, s.numnorm, s.numcol)
  }

  /** With no normals or colours counted, the header file is the preamble,
      the vertex and index arrays and the trailer. */
  lemma OnlyCountedArrays(name: string, s: State)
    requires s.numnorm == 0 && s.numcol == 0
    ensures FinishedSections(name, s)
      == [Preamble(name), AppendFile(FinishedArray(VertexPrefix(name), s.vertices)),
          AppendFile(FinishedArray(IndexPrefix(name), s.indices)), Trailer(name, s.numind, s.numvert)]
  {
  }

  /** The header file of a finished state. */
  function HeaderText(name: string, s: State): string {
    Concat(FinishedSections(name, s))
  }

  /** `text` declares the array whose head is `prefix` (the cut may have
      taken the head's `{`). */
  predicate Declares(text: string, prefix: string) {
    |prefix| > 0 && prefix[..|prefix| - 1] <= text
  }

  lemma FinishedDeclares(prefix: string, tokens: seq<string>)
    requires |prefix| > 0
    ensures Declares(FinishedArray(prefix, tokens), prefix)
  {
  }

  lemma DifferAt(a: string, b: string, k: nat)
    requires k < |a| && k < |b| && a[k] != b[k]
    ensures a != b
  {
  }

  /** The character at which each array head differs from the others and
      from the trailer: the type (`GLuint`, `GLsizeiptr`) or the array's
      own name. */
  lemma HeadCharacters(name: string)
    ensures var k := 15 + |name|;
      && |VertexPrefix(name)| > k && VertexPrefix(name)[k] == 'v' && VertexPrefix(name)[8] == 'f'
      && |NormalPrefix(name)| > k && NormalPrefix(name)[k] == 'n' && NormalPrefix(name)[8] == 'f'
      && |ColourPrefix(name)| > k && ColourPrefix(name)[k] == 'c' && ColourPrefix(name)[8] == 'f'
      && |IndexPrefix(name)| > 8 && IndexPrefix(name)[8] == 'u'
      && |Trailer(name, 0, 0)| > 9
  {
  }

  /** An appended array is never the preamble, the trailer, or another
      array: each starts with its own head. */
  lemma SectionsDiffer(name: string, a: string, pa: string, b: string, pb: string, numind: u32, numvert: u32)
    requires pa in {VertexPrefix(name), IndexPrefix(name), NormalPrefix(name), ColourPrefix(name)}
    requires pb in {VertexPrefix(name), IndexPrefix(name), NormalPrefix(name), ColourPrefix(name)}
    requires Declares(a, pa) && Declares(b, pb) && pa != pb
    ensures "\n" + a != Preamble(name)
    ensures "\n" + a != Trailer(name, numind, numvert)
    ensures "\n" + a != "\n" + b
  {
    HeadCharacters(name);
    var k := 15 + |name|;
    assert ("\n" + a)[1] == pa[0] == 'c';
    DifferAt("\n" + a, Preamble(name), 1);
    assert Trailer(name, numind, numvert)[9] == 's';
    assert ("\n" + a)[9] == pa[8];
    DifferAt("\n" + a, Trailer(name, numind, numvert), 9);
    assert k < |pa| - 1 && k < |pb| - 1;
    assert a[8] == pa[8] && b[8] == pb[8] && a[k] == pa[k] && b[k] == pb[k];
    if pa[8] == pb[8] {
      assert pa[k] != pb[k];
    }
    assert ("\n" + a)[9] != ("\n" + b)[9] || ("\n" + a)[k + 1] != ("\n" + b)[k + 1];
  }

  /** The vertex and index arrays are always written; the normals array
      is written if and only if `numnorm > 0` and the colours array if and
      only if `numcol > 0`; the preamble comes first and the trailer last. */
  lemma OutputLayout(name: string, v: string, i: string, n: string, c: string,
                     numind: u32, numvert: u32, numnorm: u32, numcol: u32)
    requires Declares(v, VertexPrefix(name)) && Declares(i, IndexPrefix(name))
    requires Declares(n, NormalPrefix(name)) && Declares(c, ColourPrefix(name))
    ensures var parts := Sections(name, v, i, n, c, numind, numvert, numnorm, numcol);
      && parts[0] == Preamble(name)
      && parts[1] == AppendFile(v) && parts[2] == AppendFile(i)
      && parts[|parts| - 1] == Trailer(name, numind, numvert)
      && (AppendFile(n) in parts <==> numnorm > 0)
      && (AppendFile(c) in parts <==> numcol > 0)
  {
    var vp, ip, np, cp := VertexPrefix(name), IndexPrefix(name), NormalPrefix(name), ColourPrefix(name);
    HeadsDiffer(name);
    SectionsDiffer(name, n, np, v, vp, numind, numvert);
    SectionsDiffer(name, n, np, i, ip, numind, numvert);
    SectionsDiffer(name, n, np, c, cp, numind, numvert);
    SectionsDiffer(name, c, cp, v, vp, numind, numvert);
    SectionsDiffer(name, c, cp, i, ip, numind, numvert);
    SectionsDiffer(name, c, cp, n, np, numind, numvert);
    LayoutPresence(Preamble(name), AppendFile(v), AppendFile(i), AppendFile(n), AppendFile(c),
                   Trailer(name, numind, numvert), numnorm > 0, numcol > 0);
  }

  /** The four array heads differ from one another. */
  lemma HeadsDiffer(name: string)
    ensures NormalPrefix(name) != VertexPrefix(name) && NormalPrefix(name) != IndexPrefix(name)
    ensures ColourPrefix(name) != VertexPrefix(name) && ColourPrefix(name) != IndexPrefix(name)
    ensures ColourPrefix(name) != NormalPrefix(name)
  {
    var k := 15 + |name|;
    HeadCharacters(name);
    DifferAt(NormalPrefix(name), IndexPrefix(name), 8);
    DifferAt(ColourPrefix(name), IndexPrefix(name), 8);
    DifferAt(NormalPrefix(name), VertexPrefix(name), k);
    DifferAt(ColourPrefix(name), VertexPrefix(name), k);
    DifferAt(ColourPrefix(name), NormalPrefix(name), k);
  }
}
