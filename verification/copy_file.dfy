/** `appendFile`: a newline, then the source file copied in `fgets`
    chunks of at most 255 characters into the destination. The loop as
    written tests `feof` before each `fgets` and prints the buffer whether
    or not the read succeeded. */
module CopyFile {

  /** `sizeof(buf) - 1`: the most characters one `fgets` stores. */
  const CHUNK: nat := 255

  /** How many characters one `fgets` takes from `rest`: up to and
      including the first newline, at most `CHUNK`, at most what is left. */
  function ChunkLength(rest: string): (n: nat)
    requires |rest| > 0
    ensures 0 < n <= |rest| && n <= CHUNK
    ensures '\n' !in rest[..n - 1]
    ensures rest[n - 1] == '\n' || n == CHUNK || n == |rest|
  {
    ChunkFrom(rest, 0)
  }

  function ChunkFrom(rest: string, i: nat): (n: nat)
    requires i < |rest| && i < CHUNK
    requires '\n' !in rest[..i]
    ensures i < n <= |rest| && n <= CHUNK
    ensures '\n' !in rest[..n - 1]
    ensures rest[n - 1] == '\n' || n == CHUNK || n == |rest|
    decreases |rest| - i
  {
    if rest[i] == '\n' || i + 1 == CHUNK || i + 1 == |rest| then i + 1
    else
      assert rest[..i + 1] == rest[..i] + [rest[i]];
      ChunkFrom(rest, i + 1)
  }

  /** An `fgets` that filled its chunk without running into the end of the
      file: it stopped at a newline or at the size limit. Only a read that
      ran into the end sets the end-of-file flag. */
  predicate StoppedShort(rest: string)
    requires |rest| > 0
  {
    var n := ChunkLength(rest);
    rest[n - 1] == '\n' || n == CHUNK
  }

  /** The `while(!feof(f1)) { fgets(buf, ...); fprintf(f2, "%s", buf); }`
      loop over what is left of the source, `buf` holding the previous
      chunk. At the end of the file `fgets` fails without touching `buf`,
      and the stale chunk is printed again. It never loses any of the
      source, but may print up to one chunk more. */
  function CopyAsWritten(rest: string, buf: string): (r: string)
    ensures rest <= r
    ensures |buf| <= CHUNK ==> |r| <= |rest| + CHUNK
    decreases |rest|
  {
    if rest == [] then buf
    else
      var n := ChunkLength(rest);
      rest[..n] + (if n == |rest| && !StoppedShort(rest) then "" else CopyAsWritten(rest[n..], rest[..n]))
  }

  /** The copy with the end-of-file test on `fgets` itself
      (`while (fgets(buf, ...) != NULL)`), which is what the loop is for:
      the chunks of the source, each once. */
  function Copy(rest: string): (r: string)
    ensures r == rest
    decreases |rest|
  {
    if rest == [] then ""
    else
      var n := ChunkLength(rest);
      assert rest == rest[..n] + rest[n..];
      rest[..n] + Copy(rest[n..])
  }

  /** What `appendFile` adds to the destination. */
  function AppendFile(source: string): (r: string)
    ensures r == "\n" + source
  {
    "\n" + Copy(source)
  }

  /** As written, a non-empty source whose last chunk fills the 255
      characters, or ends with a newline, is copied with that chunk twice. */
  lemma {:induction false} DuplicatesLastChunk(rest: string, buf: string)
    requires |rest| > 0 && LastChunkStopsShort(rest)
    ensures CopyAsWritten(rest, buf) == rest + LastChunk(rest)
    decreases |rest|
  {
    var n := ChunkLength(rest);
    if n < |rest| {
      ChunkThenMore(rest, buf);
      DuplicatesLastChunk(rest[n..], rest[..n]);
      Reassociate(rest, n, LastChunk(rest));
    } else {
      OnlyChunkTwice(rest, buf);
    }
  }

  lemma Reassociate(rest: string, n: nat, last: string)
    requires n <= |rest|
    ensures rest[..n] + (rest[n..] + last) == rest + last
  {
    assert rest[..n] + rest[n..] == rest;
  }

  /** A source read in one chunk that stops short comes out twice. */
  lemma OnlyChunkTwice(rest: string, buf: string)
    requires |rest| > 0 && ChunkLength(rest) == |rest| && LastChunkStopsShort(rest)
    ensures CopyAsWritten(rest, buf) == rest + LastChunk(rest)
  {
    assert rest[..|rest|] == rest && rest[|rest|..] == [];
  }

  /** A chunk that leaves characters behind is followed by the copy of the
      rest, and decides neither the last chunk nor how it stopped. */
  lemma ChunkThenMore(rest: string, buf: string)
    requires |rest| > 0 && ChunkLength(rest) < |rest|
    ensures var n := ChunkLength(rest);
      && CopyAsWritten(rest, buf) == rest[..n] + CopyAsWritten(rest[n..], rest[..n])
      && LastChunk(rest) == LastChunk(rest[n..])
      && LastChunkStopsShort(rest) == LastChunkStopsShort(rest[n..])
  {
  }

  /** As written, a non-empty source whose last chunk runs into the end of
      the file is copied exactly. */
  lemma {:induction false} CopiedOnce(rest: string, buf: string)
    requires |rest| > 0 && !LastChunkStopsShort(rest)
    ensures CopyAsWritten(rest, buf) == rest
    decreases |rest|
  {
    var n := ChunkLength(rest);
    if n < |rest| {
      var more := rest[n..];
      CopiedOnce(more, rest[..n]);
      assert rest == rest[..n] + more;
    } else {
      assert rest[..n] == rest;
    }
  }

  /** The chunk the last `fgets` of `rest` returns. */
  function LastChunk(rest: string): string
    requires |rest| > 0
    decreases |rest|
  {
    var n := ChunkLength(rest);
    if n == |rest| then rest else LastChunk(rest[n..])
  }

  /** The last `fgets` of `rest` stops at a newline or at the size limit. */
  predicate LastChunkStopsShort(rest: string)
    requires |rest| > 0
    decreases |rest|
  {
    var n := ChunkLength(rest);
    if n == |rest| then StoppedShort(rest) else LastChunkStopsShort(rest[n..])
  }

  /** A source without newlines is read in chunks of exactly 255
      characters and a shorter rest. As written, it is copied exactly
      unless its length is a multiple of 255, in which case its last 255
      characters come out twice. */
  lemma {:induction false} NewlineFreeCopy(rest: string, buf: string)
    requires '\n' !in rest && |rest| > 0
    ensures CopyAsWritten(rest, buf)
      == if |rest| % CHUNK == 0 then rest + rest[|rest| - CHUNK..] else rest
    decreases |rest|
  {
    if |rest| > CHUNK {
      var more := FullChunk(rest, buf);
      NewlineFreeCopy(more, rest[..CHUNK]);
      FullChunkFirst(rest, more, CopyAsWritten(more, rest[..CHUNK]));
    } else {
      OneChunk(rest, buf);
      OneChunkAlone(rest);
    }
  }

  /** A full chunk in front of the rest's copy: the copy of the whole. */
  lemma FullChunkFirst(rest: string, more: string, copied: string)
    requires |rest| > CHUNK && more == rest[CHUNK..] && |more| % CHUNK == |rest| % CHUNK
    requires copied == if |more| % CHUNK == 0 then more + more[|more| - CHUNK..] else more
    ensures rest[..CHUNK] + copied == if |rest| % CHUNK == 0 then rest + rest[|rest| - CHUNK..] else rest
  {
    if |rest| % CHUNK == 0 {
      assert more[|more| - CHUNK..] == rest[|rest| - CHUNK..];
    }
    assert rest[..CHUNK] + more == rest;
  }

  /** A source of at most one chunk has a length that is a multiple of 255
      only when it fills the chunk. */
  lemma OneChunkAlone(rest: string)
    requires 0 < |rest| <= CHUNK
    ensures (if |rest| == CHUNK then rest + rest else rest)
      == if |rest| % CHUNK == 0 then rest + rest[|rest| - CHUNK..] else rest
  {
    if |rest| == CHUNK {
      assert |rest| % CHUNK == 0 && rest[|rest| - CHUNK..] == rest;
    } else {
      assert |rest| % CHUNK == |rest|;
    }
  }

  /** A source of at most 255 characters without newlines is one chunk:
      as written it comes out twice if it fills the chunk. */
  lemma OneChunk(rest: string, buf: string)
    requires '\n' !in rest && 0 < |rest| <= CHUNK
    ensures CopyAsWritten(rest, buf) == if |rest| == CHUNK then rest + rest else rest
  {
    var n := ChunkLength(rest);
    assert rest[n - 1] != '\n';
    assert n == |rest| && rest[..n] == rest;
  }

  /** The first chunk of a longer source without newlines is 255
      characters, followed by the copy of the newline-free rest. */
  lemma FullChunk(rest: string, buf: string) returns (more: string)
    requires '\n' !in rest && |rest| > CHUNK
    ensures ChunkLength(rest) == CHUNK && more == rest[CHUNK..]
    ensures '\n' !in more && |more| % CHUNK == |rest| % CHUNK
    ensures CopyAsWritten(rest, buf) == rest[..CHUNK] + CopyAsWritten(more, rest[..CHUNK])
  {
    var n := ChunkLength(rest);
    assert rest[n - 1] != '\n';
    more := rest[n..];
    forall i | 0 <= i < |more| ensures more[i] != '\n' {
      assert more[i] == rest[n + i];
    }
    ChunkThenMore(rest, buf);
  }

  /** The smallest instance: 255 characters with no newline come out twice,
      where the loop with the corrected test copies them once. */
  lemma DuplicatedChunk(s: string)
    requires |s| == CHUNK && '\n' !in s
    ensures CopyAsWritten(s, "") == s + s
    ensures Copy(s) == s
  {
    assert ChunkLength(s) == CHUNK;
    assert LastChunkStopsShort(s);
    assert LastChunk(s) == s;
    DuplicatesLastChunk(s, "");
  }
}
