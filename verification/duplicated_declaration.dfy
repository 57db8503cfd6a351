/** A PLY file on which `appendFile` as written copies the vertex array
    twice: a header terminator and eight vertex lines `10 0 0` under the
    name `a`. Each line adds `10.000000,0.000000,0.000000,` (28
    characters) to the 30-character head, and closing the file takes one
    character and adds two, so the declaration is exactly one full 255
    character chunk with no newline. */
module DuplicatedDeclaration {
  import opened Format
  import opened Input
  import opened Conversion
  import opened CopyFile
  import opened Header

  /** `x` written `k` times in a row. */
  function Repeat<T>(x: seq<T>, k: nat): seq<T> {
    if k == 0 then [] else Repeat(x, k - 1) + x
  }

  lemma {:induction false} RepeatLength<T>(x: seq<T>, k: nat)
    ensures |Repeat(x, k)| == k * |x|
  {
    if k > 0 {
      RepeatLength(x, k - 1);
      assert (k - 1) * |x| + |x| == k * |x|;
    }
  }

  lemma {:induction false} RepeatAbsent(x: string, k: nat, c: char)
    requires c !in x
    ensures c !in Repeat(x, k)
  {
    if k > 0 {
      RepeatAbsent(x, k - 1, c);
    }
  }

  /** The text of repeated tokens is the repeated text of the tokens. */
  lemma {:induction false} TerminatedRepeat(tokens: seq<string>, k: nat)
    ensures Terminated(Repeat(tokens, k)) == Repeat(Terminated(tokens), k)
  {
    if k > 0 {
      TerminatedRepeat(tokens, k - 1);
      TerminatedAppend(Repeat(tokens, k - 1), tokens);
    }
  }

  /** The same position line read `k` times in vertex mode writes its
      coordinates `k` times. */
  lemma {:induction false} RunRepeats(s: State, line: Line, positions: seq<Line>)
    requires s.mode == ReadVertices && IsPositionLine(line)
    requires forall i :: 0 <= i < |positions| ==> positions[i] == line
    ensures Run(s, positions).mode == ReadVertices
    ensures Run(s, positions).vertices == s.vertices + Repeat(CoordTokens(At(line.floats, 0)), |positions|)
    decreases |positions|
  {
    if positions != [] {
      var front := positions[..|positions| - 1];
      RunRepeats(s, line, front);
      PositionEffect(Run(s, front), line);
      VertexLineEffect(Run(s, front), line);
    }
  }

  const TEN: Line := Line("10 0 0\n", [10.0, 0.0, 0.0], [10, 0, 0])

  /** A whole number printed with `%.6f`: its digits, a point and six
      zeros, no newline. */
  lemma WholeToken(k: nat)
    ensures |Fixed(k as real, 6)| == |Decimal(k)| + 7 && '\n' !in Fixed(k as real, 6)
  {
    FixedWhole(k, 6);
    var d := Decimal(k);
    assert '\n' !in d by {
      forall i | 0 <= i < |d| ensures d[i] != '\n' {
        assert IsDigit(d[i]);
      }
    }
  }

  /** What one `10 0 0` line adds to the vertex file: 28 characters, no
      newline. */
  lemma TenText() returns (w: string)
    ensures IsPositionLine(TEN)
    ensures w == Terminated(CoordTokens(At(TEN.floats, 0)))
    ensures |w| == 28 && '\n' !in w
  {
    WholeToken(10);
    WholeToken(0);
    assert |Decimal(10)| == 2 && |Decimal(0)| == 1;
    var a, b := Fixed(10.0, 6), Fixed(0.0, 6);
    assert CoordTokens(At(TEN.floats, 0)) == [a, b, b];
    TerminatedTriple([], a, b, b);
    assert [] + [a, b, b] == [a, b, b];
    w := Terminated([a, b, b]);
  }

  /** Closing a text without newlines keeps it free of newlines and adds
      one character. */
  lemma CloseNoNewline(text: string)
    requires |text| > 0 && '\n' !in text
    ensures |Close(text)| == |text| + 1 && '\n' !in Close(text)
  {
    var t := Close(text);
    forall i | 0 <= i < |t| ensures t[i] != '\n' {
      if i < |text| - 1 {
        assert t[i] == text[i];
      }
    }
  }

  lemma VertexHead()
    ensures |VertexPrefix("a")| == 30 && '\n' !in VertexPrefix("a")
  {
  }

  /** The closed vertex file of the eight lines: one full chunk, no newline. */
  lemma ClosedVertices(tokens: seq<string>) returns (t: string)
    requires tokens == Repeat(CoordTokens(At(TEN.floats, 0)), 8)
    ensures t == Close(ArrayText(VertexPrefix("a"), tokens))
    ensures |t| == CHUNK && '\n' !in t
  {
    var w := TenText();
    TerminatedRepeat(CoordTokens(At(TEN.floats, 0)), 8);
    RepeatLength(w, 8);
    RepeatAbsent(w, 8, '\n');
    VertexHead();
    var text := ArrayText(VertexPrefix("a"), tokens);
    assert text == VertexPrefix("a") + Repeat(w, 8);
    CloseNoNewline(text);
    t := Close(text);
  }

  /** On the terminator and eight `10 0 0` lines, the vertex array that
      `appendFile` as written copies into `a.h` comes out twice; the
      corrected copy writes it once. */
  lemma VertexArrayTwice(lines: seq<Line>)
    requires |lines| == 9 && IsEndHeader(lines[0])
    requires forall i :: 1 <= i < 9 ==> lines[i] == TEN
    ensures var t := Close(ArrayText(VertexPrefix("a"), Run(INITIAL, lines).vertices));
      && |t| == CHUNK
      && CopyAsWritten(t, "") == t + t
      && AppendFile(t) == "\n" + t
  {
    var tokens := EightTens(lines);
    var t := ClosedVertices(tokens);
    DuplicatedChunk(t);
  }

  /** The vertex tokens those lines write: the coordinates of `10 0 0`
      eight times. */
  lemma EightTens(lines: seq<Line>) returns (tokens: seq<string>)
    requires |lines| == 9 && IsEndHeader(lines[0])
    requires forall i :: 1 <= i < 9 ==> lines[i] == TEN
    ensures tokens == Run(INITIAL, lines).vertices
    ensures tokens == Repeat(CoordTokens(At(TEN.floats, 0)), 8)
  {
    var _ := TenText();
    var rest := lines[1..];
    assert lines == [lines[0]] + rest;
    AfterHeader([], lines[0]);
    assert [] + [lines[0]] == [lines[0]];
    RunConcat(INITIAL, [lines[0]], rest);
    RunRepeats(INITIAL.(mode := ReadVertices), TEN, rest);
    tokens := Run(INITIAL, lines).vertices;
  }
}
