/** The input lines of the converter and how each reading mode interprets
    them. A line is the text `fgets` returned together with what `sscanf`
    reads at its start; the number parsing itself belongs to the C library
    and is given, not computed. */
module Input {
  import opened Format

  /** One input line. `text` is compared with the header terminator;
      `floats` are the leading values the `%f` conversions match (as exact
      values) and `uints` the leading values the `%u` conversions match.
      `sscanf` returns how many of its conversions matched, so a pattern of
      k conversions succeeds exactly when there are at least k of them. */
  datatype Line = Line(text: string, floats: seq<real>, uints: seq<u32>)

  const END_HEADER: string := "end_header\n"

  /** `strcmp(line, "end_header\n") == 0`. */
  predicate IsEndHeader(line: Line) {
    line.text == END_HEADER
  }

  datatype Vec3 = Vec3(x: real, y: real, z: real)

  /** The first three readings of a 3-float line being exactly 3, 0, 1: a
      PLY face line `3 0 1 2` read as floats. It marks the start of the
      face list. */
  predicate IsFaceMarker(floats: seq<real>) {
    |floats| >= 3 && floats[0] == 3.0 && floats[1] == 0.0 && floats[2] == 1.0
  }

  /** What a line means while vertices are read (`mode == 1`). */
  datatype VertexLine =
    | Full(position: Vec3, normal: Vec3, colour: Vec3)
    | WithNormal(position: Vec3, normal: Vec3)
    | Position(position: Vec3)
    | FaceStart

  function At(floats: seq<real>, i: nat): Vec3
    requires i + 3 <= |floats|
  {
    Vec3(floats[i], floats[i + 1], floats[i + 2])
  }

  /** The 9-, 6- and 3-float patterns are tried in that order; a 3-float
      line equal to the face marker, or a line matching none of them, ends
      the vertex list. */
  function ReadVertexLine(floats: seq<real>): (v: VertexLine)
    ensures v.Full? <==> |floats| >= 9
    ensures v.WithNormal? <==> 6 <= |floats| < 9
    ensures v.Position? <==> 3 <= |floats| < 6 && !IsFaceMarker(floats)
    ensures v.FaceStart? <==> |floats| < 3 || (|floats| < 6 && IsFaceMarker(floats))
    ensures !v.FaceStart? ==> v.position == At(floats, 0)
    ensures (v.Full? || v.WithNormal?) ==> v.normal == At(floats, 3)
    ensures v.Full? ==> v.colour == At(floats, 6)
  {
    if |floats| >= 9 then Full(At(floats, 0), At(floats, 3), At(floats, 6))
    else if |floats| >= 6 then WithNormal(At(floats, 0), At(floats, 3))
    else if |floats| >= 3 && !IsFaceMarker(floats) then Position(At(floats, 0))
    else FaceStart
  }
}
